/** The prepared list of operations, and what an uninterrupted run of it does. */
module PreparedRun {
  import opened Paths
  import opened FileTree
  import opened PlanRuns
  import opened MovePlanner
  import opened SourceCleanup
  import opened CleanupPlan
  import opened Execution
  import opened Preparation

  /** Each operation carries the step at its position and is ready to run. */
  ghost predicate Carries(operations: seq<Operation>, steps: seq<Step>) {
    |operations| == |steps|
    && forall k | 0 <= k < |steps| :: operations[k].step == steps[k] && operations[k].status == PreflightOk
  }

  lemma CarriesBoth(a: seq<Operation>, x: seq<Step>, b: seq<Operation>, y: seq<Step>)
    requires Carries(a, x) && Carries(b, y)
    ensures Carries(a + b, x + y)
  {
  }

  lemma {:induction false} CarriedSteps(operations: seq<Operation>, steps: seq<Step>)
    requires Carries(operations, steps)
    ensures ScheduledSteps(operations) == steps
  {
    if operations != [] {
      CarriedSteps(operations[1..], steps[1..]);
      assert steps == [steps[0]] + steps[1..];
    }
  }

  lemma {:induction false} BlockedSteps(operations: seq<Operation>)
    requires forall k | 0 <= k < |operations| :: operations[k].status == Blocked
    ensures ScheduledSteps(operations) == []
  {
    if operations != [] {
      BlockedSteps(operations[1..]);
    }
  }

  // ---- the parts of the list

  /** Operation ids: candidates below `n`, their staging moves below `2n`, directories after. */
  function WithoutWaiting(steps: seq<Step>, firstId: nat): (operations: seq<Operation>)
    ensures Carries(operations, steps)
    ensures forall k | 0 <= k < |steps| :: operations[k] == Operation(firstId + k, steps[k], false, {}, PreflightOk)
  {
    seq(|steps|, k requires 0 <= k < |steps| => Operation(firstId + k, steps[k], false, {}, PreflightOk))
  }

  function DirectOperations(c: seq<Candidate>, ordered: seq<nat>): (operations: seq<Operation>)
    requires forall x | 0 <= x < |ordered| :: ordered[x] < |c|
    ensures Carries(operations, DirectMoves(c, ordered))
    ensures forall x | 0 <= x < |ordered| ::
              operations[x].id == ordered[x] && !operations[x].stage && operations[x].dependencies == c[ordered[x]].dependencies
  {
    var moves := DirectMoves(c, ordered);
    seq(|ordered|, x requires 0 <= x < |ordered| =>
      Operation(ordered[x], moves[x], false, c[ordered[x]].dependencies, PreflightOk))
  }

  function StageOperations(c: seq<Candidate>, cyclic: seq<nat>, places: seq<Path>): (operations: seq<Operation>)
    requires |places| == |cyclic| && forall x | 0 <= x < |cyclic| :: cyclic[x] < |c|
    ensures Carries(operations, StageMoves(c, cyclic, places))
    ensures forall x | 0 <= x < |cyclic| ::
              operations[x].id == |c| + cyclic[x] && operations[x].stage && operations[x].dependencies == {}
  {
    var moves := StageMoves(c, cyclic, places);
    seq(|cyclic|, x requires 0 <= x < |cyclic| => Operation(|c| + cyclic[x], moves[x], true, {}, PreflightOk))
  }

  function StageIds(c: seq<Candidate>, cyclic: seq<nat>): set<nat> {
    set x | 0 <= x < |cyclic| :: |c| + cyclic[x]
  }

  /** A final move of the cycle waits for every staging move. */
  function FinalOperations(c: seq<Candidate>, cyclic: seq<nat>, places: seq<Path>): (operations: seq<Operation>)
    requires |places| == |cyclic| && forall x | 0 <= x < |cyclic| :: cyclic[x] < |c|
    ensures Carries(operations, FinalMoves(c, cyclic, places))
    ensures forall x | 0 <= x < |cyclic| ::
              operations[x].id == cyclic[x] && !operations[x].stage && operations[x].dependencies == StageIds(c, cyclic)
  {
    var moves := FinalMoves(c, cyclic, places);
    seq(|cyclic|, x requires 0 <= x < |cyclic| => Operation(cyclic[x], moves[x], false, StageIds(c, cyclic), PreflightOk))
  }

  function BlockedOperations(c: seq<Candidate>): (operations: seq<Operation>)
    ensures forall k | 0 <= k < |operations| :: operations[k].status == Blocked && !operations[k].stage
  {
    if c == [] then []
    else
      BlockedOperations(c[..|c| - 1])
      + (var last := c[|c| - 1];
         if last.blocked then [Operation(last.id, Move(Key(last.source), Key(last.destination), last.state), false,
                                         last.dependencies, Blocked)]
         else [])
  }

  /** Directories, direct moves, the staged cycle, removals, and last what is blocked. */
  function OperationsOf(c: seq<Candidate>, ordered: seq<nat>, cyclic: seq<nat>, places: seq<Path>, plan: Plan): seq<Operation>
    requires (forall x | 0 <= x < |ordered| :: ordered[x] < |c|) && forall x | 0 <= x < |cyclic| :: cyclic[x] < |c|
    requires |places| == |cyclic|
  {
    var creates := WithoutWaiting(Creates(plan.directories), 2 * |c|);
    var removes := WithoutWaiting(Removes(plan.removals), 2 * |c| + |plan.directories|);
    creates + DirectOperations(c, ordered) + StageOperations(c, cyclic, places) + FinalOperations(c, cyclic, places)
    + removes + BlockedOperations(c)
  }

  lemma FrontByParts(plan: Plan)
    ensures Creates(plan.directories) + plan.direct + plan.stages + plan.finals == Front(plan)
  {
  }

  lemma OperationsCarryThePlan(c: seq<Candidate>, ordered: seq<nat>, cyclic: seq<nat>, places: seq<Path>,
                               directories: seq<Path>, removals: seq<Path>)
    requires (forall x | 0 <= x < |ordered| :: ordered[x] < |c|) && forall x | 0 <= x < |cyclic| :: cyclic[x] < |c|
    requires |places| == |cyclic|
    ensures var plan := PlanOf(c, ordered, cyclic, places, directories, removals);
            ScheduledSteps(OperationsOf(c, ordered, cyclic, places, plan)) == Steps(plan)
  {
    var plan := PlanOf(c, ordered, cyclic, places, directories, removals);
    var a := WithoutWaiting(Creates(plan.directories), 2 * |c|);
    var b, s, f := DirectOperations(c, ordered), StageOperations(c, cyclic, places), FinalOperations(c, cyclic, places);
    var r := WithoutWaiting(Removes(plan.removals), 2 * |c| + |plan.directories|);
    CarriesBoth(a, Creates(plan.directories), b, plan.direct);
    CarriesBoth(a + b, Creates(plan.directories) + plan.direct, s, plan.stages);
    CarriesBoth(a + b + s, Creates(plan.directories) + plan.direct + plan.stages, f, plan.finals);
    CarriesBoth(a + b + s + f, Creates(plan.directories) + plan.direct + plan.stages + plan.finals, r, Removes(plan.removals));
    FrontByParts(plan);
    CarriedSteps(a + b + s + f + r, Steps(plan));
    BlockedSteps(BlockedOperations(c));
    ScheduledConcat(a + b + s + f + r, BlockedOperations(c));
  }

  // ---- dependencies come first

  /** Every operation of `more` waits only for ready operations of `front` or earlier ones
      of `more` itself. */
  ghost predicate Earlier(front: seq<Operation>, more: seq<Operation>) {
    forall k, d | 0 <= k < |more| && more[k].status.PreflightOk? && d in more[k].dependencies ::
      Offers(front, |front|, d) || Offers(more, k, d)
  }

  ghost predicate Offers(operations: seq<Operation>, k: nat, d: nat)
    requires k <= |operations|
  {
    exists j | 0 <= j < k :: operations[j].id == d && operations[j].status.PreflightOk?
  }

  lemma DependenciesEarlierBoth(front: seq<Operation>, more: seq<Operation>)
    requires DependenciesEarlier(front) && Earlier(front, more)
    ensures DependenciesEarlier(front + more)
  {
    var both := front + more;
    forall k, d | 0 <= k < |both| && both[k].status.PreflightOk? && d in both[k].dependencies
      ensures exists j | 0 <= j < k :: both[j].id == d && both[j].status.PreflightOk?
    {
      if k < |front| {
        assert front[k] == both[k];
        var j :| 0 <= j < k && front[j].id == d && front[j].status.PreflightOk?;
        assert both[j] == front[j];
      } else {
        OffersInBoth(front, more, k - |front|, d);
      }
    }
  }

  lemma OffersInBoth(front: seq<Operation>, more: seq<Operation>, k: nat, d: nat)
    requires k < |more| && (Offers(front, |front|, d) || Offers(more, k, d))
    ensures exists j | 0 <= j < |front| + k :: (front + more)[j].id == d && (front + more)[j].status.PreflightOk?
  {
    if Offers(front, |front|, d) {
      var j :| 0 <= j < |front| && front[j].id == d && front[j].status.PreflightOk?;
      assert (front + more)[j] == front[j];
    } else {
      var j :| 0 <= j < k && more[j].id == d && more[j].status.PreflightOk?;
      assert (front + more)[|front| + j] == more[j];
    }
  }

  lemma DirectEarlier(t: Tree, c: seq<Candidate>, ordered: seq<nat>, cyclic: seq<nat>, front: seq<Operation>)
    requires Verdicts(t, c) && Arranged(c, ordered, cyclic)
    ensures Earlier(front, DirectOperations(c, ordered))
  {
    var more := DirectOperations(c, ordered);
    ListedAreOpen(c, ordered, cyclic);
    forall x, d | 0 <= x < |more| && d in more[x].dependencies ensures Offers(more, x, d) {
      var i := ordered[x];
      assert (ordered + cyclic)[x] == i;
      assert HasPlace(t, c, i) && d in c[i].dependencies;
      var j :| 0 <= j < |c| && !c[j].blocked && Occupies(c, j, i) && c[i].dependencies == {j};
      ListedBefore(c, ordered, cyclic, x, j);
      var y :| 0 <= y < x && ordered[y] == j;
      assert more[y].id == d;
    }
  }

  lemma FinalsEarlier(c: seq<Candidate>, cyclic: seq<nat>, places: seq<Path>, front: seq<Operation>)
    requires |places| == |cyclic| && forall x | 0 <= x < |cyclic| :: cyclic[x] < |c|
    ensures Earlier(front + StageOperations(c, cyclic, places), FinalOperations(c, cyclic, places))
  {
    var before, more := front + StageOperations(c, cyclic, places), FinalOperations(c, cyclic, places);
    forall k, d | 0 <= k < |more| && d in more[k].dependencies ensures Offers(before, |before|, d) {
      var x :| 0 <= x < |cyclic| && d == |c| + cyclic[x];
      assert before[|front| + x] == StageOperations(c, cyclic, places)[x];
    }
  }

  lemma NoWaitingEarlier(front: seq<Operation>, more: seq<Operation>)
    requires DependenciesEarlier(front)
    requires forall k | 0 <= k < |more| :: more[k].status == Blocked || more[k].dependencies == {}
    ensures DependenciesEarlier(front + more)
  {
    assert Earlier(front, more);
    DependenciesEarlierBoth(front, more);
  }

  lemma PreparedDependencies(t: Tree, c: seq<Candidate>, ordered: seq<nat>, cyclic: seq<nat>, places: seq<Path>, plan: Plan)
    requires Verdicts(t, c) && Arranged(c, ordered, cyclic) && |places| == |cyclic|
    ensures DependenciesEarlier(OperationsOf(c, ordered, cyclic, places, plan))
  {
    var a := WithoutWaiting(Creates(plan.directories), 2 * |c|);
    var b, s, f := DirectOperations(c, ordered), StageOperations(c, cyclic, places), FinalOperations(c, cyclic, places);
    var r := WithoutWaiting(Removes(plan.removals), 2 * |c| + |plan.directories|);
    DirectEarlier(t, c, ordered, cyclic, a);
    DependenciesEarlierBoth(a, b);
    NoWaitingEarlier(a + b, s);
    FinalsEarlier(c, cyclic, places, a + b);
    DependenciesEarlierBoth(a + b + s, f);
    NoWaitingEarlier(a + b + s + f, r);
    NoWaitingEarlier(a + b + s + f + r, BlockedOperations(c));
    assert OperationsOf(c, ordered, cyclic, places, plan) == a + b + s + f + r + BlockedOperations(c);
  }

  // ---- the staging group is contiguous

  /** Operations outside the group: no staging moves, and no wait for one. */
  ghost predicate OutsideGroup(operations: seq<Operation>, stageIds: set<nat>) {
    forall k | 0 <= k < |operations| ::
      operations[k].status == Blocked || (!operations[k].stage && operations[k].dependencies !! stageIds)
  }

  ghost predicate IsStagingGroup(stages: seq<Operation>, finals: seq<Operation>, stageIds: set<nat>) {
    && |stages| == |finals|
    && (forall k | 0 <= k < |stages| :: stages[k].stage && stages[k].status == PreflightOk && stages[k].id in stageIds)
    && (forall k | 0 <= k < |finals| :: !finals[k].stage && finals[k].status == PreflightOk && finals[k].dependencies == stageIds)
  }

  lemma GroupTogether(front: seq<Operation>, stages: seq<Operation>, finals: seq<Operation>, rest: seq<Operation>, stageIds: set<nat>)
    requires OutsideGroup(front, stageIds) && OutsideGroup(rest, stageIds) && IsStagingGroup(stages, finals, stageIds)
    ensures CycleGroupTogether(front + stages + finals + rest)
  {
    var all, a, b := front + stages + finals + rest, |front|, |front| + |stages| + |finals|;
    forall j | 0 <= j < |all| && all[j].stage && all[j].status != Blocked ensures all[j].id in stageIds {
      StagesAreInTheGroup(front, stages, finals, rest, stageIds, j);
    }
    forall k | 0 <= k < |all| ensures InCycleGroup(all, k) <==> a <= k < b {
      GroupMember(front, stages, finals, rest, stageIds, k);
    }
    if a < b {
      assert all[a] == stages[0];
    }
    assert CycleGroupIs(all, a, b);
  }

  lemma StagesAreInTheGroup(front: seq<Operation>, stages: seq<Operation>, finals: seq<Operation>, rest: seq<Operation>,
                            stageIds: set<nat>, j: nat)
    requires OutsideGroup(front, stageIds) && OutsideGroup(rest, stageIds) && IsStagingGroup(stages, finals, stageIds)
    requires j < |front + stages + finals + rest|
    requires (front + stages + finals + rest)[j].stage && (front + stages + finals + rest)[j].status != Blocked
    ensures (front + stages + finals + rest)[j].id in stageIds
  {
  }

  lemma GroupMember(front: seq<Operation>, stages: seq<Operation>, finals: seq<Operation>, rest: seq<Operation>,
                    stageIds: set<nat>, k: nat)
    requires OutsideGroup(front, stageIds) && OutsideGroup(rest, stageIds) && IsStagingGroup(stages, finals, stageIds)
    requires k < |front + stages + finals + rest|
    requires forall j | 0 <= j < |front + stages + finals + rest| ::
               (front + stages + finals + rest)[j].stage && (front + stages + finals + rest)[j].status != Blocked ==>
                 (front + stages + finals + rest)[j].id in stageIds
    ensures InCycleGroup(front + stages + finals + rest, k) <==> |front| <= k < |front| + |stages| + |finals|
  {
    var all := front + stages + finals + rest;
    var a, m, b := |front|, |front| + |stages|, |front| + |stages| + |finals|;
    if k < a {
      assert all[k] == front[k];
    } else if k < m {
      assert all[k] == stages[k - a];
    } else if k < b {
      assert all[k] == finals[k - m];
      assert all[a] == stages[0];
      assert all[a].stage && all[a].status != Blocked && all[a].id in all[k].dependencies;
    } else {
      assert all[k] == rest[k - b];
    }
  }

  lemma CycleIsStagingGroup(c: seq<Candidate>, cyclic: seq<nat>, places: seq<Path>)
    requires |places| == |cyclic| && forall x | 0 <= x < |cyclic| :: cyclic[x] < |c|
    ensures IsStagingGroup(StageOperations(c, cyclic, places), FinalOperations(c, cyclic, places), StageIds(c, cyclic))
  {
  }

  lemma RegroupOperations(x: seq<Operation>, y: seq<Operation>, z: seq<Operation>)
    ensures x + y + z == x + (y + z)
  {
  }

  lemma OutsideBoth(a: seq<Operation>, b: seq<Operation>, stageIds: set<nat>)
    requires OutsideGroup(a, stageIds) && OutsideGroup(b, stageIds)
    ensures OutsideGroup(a + b, stageIds)
  {
  }

  lemma PreparedGroup(t: Tree, c: seq<Candidate>, ordered: seq<nat>, cyclic: seq<nat>, places: seq<Path>, plan: Plan)
    requires Verdicts(t, c) && Arranged(c, ordered, cyclic) && |places| == |cyclic|
    ensures CycleGroupTogether(OperationsOf(c, ordered, cyclic, places, plan))
  {
    var a := WithoutWaiting(Creates(plan.directories), 2 * |c|);
    var b, s, f := DirectOperations(c, ordered), StageOperations(c, cyclic, places), FinalOperations(c, cyclic, places);
    var r := WithoutWaiting(Removes(plan.removals), 2 * |c| + |plan.directories|);
    var ids := StageIds(c, cyclic);
    DirectOutsideGroup(t, c, ordered, cyclic);
    CycleIsStagingGroup(c, cyclic, places);
    PlainOutsideGroup(Creates(plan.directories), 2 * |c|, ids);
    PlainOutsideGroup(Removes(plan.removals), 2 * |c| + |plan.directories|, ids);
    OutsideBoth(a, b, ids);
    OutsideBoth(r, BlockedOperations(c), ids);
    GroupTogether(a + b, s, f, r + BlockedOperations(c), ids);
    RegroupOperations(a + b + s + f, r, BlockedOperations(c));
  }

  lemma PlainOutsideGroup(steps: seq<Step>, firstId: nat, stageIds: set<nat>)
    ensures OutsideGroup(WithoutWaiting(steps, firstId), stageIds)
  {
  }

  lemma DirectOutsideGroup(t: Tree, c: seq<Candidate>, ordered: seq<nat>, cyclic: seq<nat>)
    requires Verdicts(t, c) && Arranged(c, ordered, cyclic)
    ensures OutsideGroup(DirectOperations(c, ordered), StageIds(c, cyclic))
  {
    ListedAreOpen(c, ordered, cyclic);
    forall x | 0 <= x < |ordered| ensures c[ordered[x]].dependencies !! StageIds(c, cyclic) {
      assert (ordered + cyclic)[x] == ordered[x];
      assert HasPlace(t, c, ordered[x]);
    }
  }

  // ---- preparation as a whole

  /** `order` lists the open candidates as their moves are listed; `removals` are the
      removed directories as the operations spell them. */
  datatype PreparedPlan = PreparedPlan(
    candidates: seq<Candidate>, order: seq<nat>, removals: seq<Path>, plan: Plan, operations: seq<Operation>)

  /** What the caller supplies: the volume as it is, and names that no proposal mentions. */
  ghost predicate Supplied(t: Tree, names: Names, proposals: seq<Proposed>, execution: Name, uuid: nat -> Name) {
    && Spelled(t, names) && OnePerFile(proposals)
    && SoundNames([execution]) && (forall k: nat :: SoundNames([uuid(k)]))
    && forall i, k: nat | 0 <= i < |proposals| :: Lower(uuid(k)) !in Key(proposals[i].destination)
  }

  /** Every open candidate is one move of the plan, from its place to its destination. */
  ghost predicate CarriesOpen(p: PreparedPlan) {
    && StagesFeedFinals(p.plan)
    && forall i | 0 <= i < |p.candidates| && !p.candidates[i].blocked ::
         exists k :: 0 <= k < |UserMoves(p.plan)| && Carried(p.candidates[i], p.plan, k)
  }

  ghost predicate Carried(c: Candidate, plan: Plan, k: nat)
    requires StagesFeedFinals(plan) && k < |UserMoves(plan)|
  {
    Origin(plan, k) == Key(c.source) && UserMoves(plan)[k].destination == Key(c.destination)
  }

  ghost predicate Runnable(t: Tree, p: PreparedPlan) {
    && PlanRuns.Planned(t, p.plan) && ScheduledSteps(p.operations) == Steps(p.plan)
    && Prepared(p.operations) && DependenciesEarlier(p.operations) && CycleGroupTogether(p.operations)
  }

  /** The removals are those of the folders that the plan empties. */
  ghost predicate CleansUp(t: Tree, names: Names, p: PreparedPlan) {
    && Spelled(t, names) && TakesInOrder(p.candidates, p.order, p.plan) && p.plan.removals == KeyList(p.removals)
    && CleanupOf(t, names, SourcesOf(p.candidates, p.order), UserDestinations(p.candidates, p.order), p.removals)
  }

  lemma OpenAreCarried(c: seq<Candidate>, ordered: seq<nat>, cyclic: seq<nat>, p: PreparedPlan)
    requires Arranged(c, ordered, cyclic) && TakesInOrder(c, ordered + cyclic, p.plan) && p.candidates == c
    ensures CarriesOpen(p)
  {
    var plan := p.plan;
    forall i | 0 <= i < |c| && !c[i].blocked ensures exists k :: 0 <= k < |UserMoves(plan)| && Carried(c[i], plan, k) {
      OpenAreListed(c, ordered, cyclic, i);
      var k :| 0 <= k < |ordered + cyclic| && (ordered + cyclic)[k] == i;
      assert Carried(c[i], plan, k);
    }
  }

  /** The directory steps around the moves of an arranged set of candidates. */
  method PlanAround(t: Tree, names: Names, execution: Name, uuid: nat -> Name, c: seq<Candidate>, ordered: seq<nat>,
                    cyclic: seq<nat>, places: seq<Path>)
    returns (plan: Plan, removals: seq<Path>, ghost directories: seq<Path>)
    requires Spelled(t, names) && Verdicts(t, c) && Arranged(c, ordered, cyclic) && |places| == |cyclic|
    requires AllStaged(t, execution, uuid, places) && FreshNames(c, uuid)
    requires SoundNames([execution]) && forall k: nat :: SoundNames([uuid(k)])
    ensures plan == PlanOf(c, ordered, cyclic, places, directories, removals) && PlanRuns.Planned(t, plan)
    ensures CleanupOf(t, names, SourcesOf(c, ordered + cyclic), UserDestinations(c, ordered + cyclic), removals)
  {
    var all := ordered + cyclic;
    ListedAreOpen(c, ordered, cyclic);
    DestinationsAreSound(t, execution, uuid, c, all, places);
    PrefixesAreOpen(t, execution, uuid, c, all, places);
    var created := PlanDirectories(t, UserDestinations(c, all) + places);
    directories := created.value;
    SourcesAreKnown(t, c, all);
    UserDestinationsAreSound(c, all, places);
    removals := PlanSourceDirectoryCleanup(t, names, SourcesOf(c, all), UserDestinations(c, all));
    plan := PlanOf(c, ordered, cyclic, places, created.value, removals);
    MovesInOrder(c, ordered, cyclic, places, directories, removals);
    DestinationsOfThePlan(c, all, plan, places);
    DirectoriesArePlanned(t, plan, UserDestinations(c, all) + places, directories);
    RemovalsArePlanned(t, names, c, all, plan, UserDestinations(c, all), removals);
    PreparedMovesArePlanned(t, execution, uuid, c, ordered, cyclic, places, directories, removals);
  }

  lemma UserDestinationsAreSound(c: seq<Candidate>, all: seq<nat>, places: seq<Path>)
    requires Indexes(c, all) && forall d | d in UserDestinations(c, all) + places :: SoundNames(d)
    ensures forall d | d in UserDestinations(c, all) :: IsRelative(d)
  {
    forall d | d in UserDestinations(c, all) ensures IsRelative(d) {
      assert d in UserDestinations(c, all) + places;
    }
  }

  lemma NamesStayFresh(proposals: seq<Proposed>, c: seq<Candidate>, uuid: nat -> Name)
    requires SameAsProposed(proposals, c)
    requires forall i, k: nat | 0 <= i < |proposals| :: Lower(uuid(k)) !in Key(proposals[i].destination)
    ensures FreshNames(c, uuid)
  {
  }

  predicate AnyOpen(c: seq<Candidate>) {
    exists i | 0 <= i < |c| :: !c[i].blocked
  }

  predicate AnyBlocked(c: seq<Candidate>) {
    exists i | 0 <= i < |c| :: c[i].blocked
  }

  /** Something can be moved, and unless parts are allowed everything can be moved together. */
  ghost predicate Welcome(t: Tree, proposals: seq<Proposed>, allowSafeSubset: bool) {
    exists together :: Movable(t, proposals, together) && Enough(proposals, together, allowSafeSubset)
  }

  /** Not nothing, and everything unless parts are allowed. */
  ghost predicate Enough(proposals: seq<Proposed>, together: set<nat>, allowSafeSubset: bool) {
    together != {} && (allowSafeSubset || forall i | 0 <= i < |proposals| :: i in together)
  }

  lemma {:induction false} WelcomeExactly(t: Tree, proposals: seq<Proposed>, c: seq<Candidate>, allowSafeSubset: bool)
    requires |c| == |proposals| && GreatestMovable(t, proposals, OpenIndexes(c))
    ensures Welcome(t, proposals, allowSafeSubset) <==> AnyOpen(c) && (allowSafeSubset || !AnyBlocked(c))
  {
    var open := OpenIndexes(c);
    if Welcome(t, proposals, allowSafeSubset) {
      var together :| Movable(t, proposals, together) && Enough(proposals, together, allowSafeSubset);
      assert together <= open;
      var i :| i in together;
      assert !c[i].blocked;
      if !allowSafeSubset {
        forall k | 0 <= k < |c| ensures !c[k].blocked {
          assert k in together && k in open;
        }
      }
    }
    if AnyOpen(c) && (allowSafeSubset || !AnyBlocked(c)) {
      var i :| 0 <= i < |c| && !c[i].blocked;
      assert i in open;
      forall k | 0 <= k < |proposals| && !allowSafeSubset ensures k in open {
        assert !c[k].blocked;
      }
      assert Enough(proposals, open, allowSafeSubset);
    }
  }

  /** `prepare_execution`: a list of operations that a run can carry out and that moves as many
      proposals as can be moved together; nothing only when there are none, when some cannot
      and parts are not allowed, or when no staging place is found. */
  method Prepare(t: Tree, names: Names, proposals: seq<Proposed>, allowSafeSubset: bool, execution: Name, uuid: nat -> Name)
    returns (r: Option<PreparedPlan>)
    requires Supplied(t, names, proposals, execution, uuid)
    ensures r.Some? ==> SameAsProposed(proposals, r.value.candidates) && Verdicts(t, r.value.candidates)
    ensures r.Some? ==> GreatestMovable(t, proposals, OpenIndexes(r.value.candidates))
    ensures r.Some? ==> CarriesOpen(r.value) && CleansUp(t, names, r.value) && Runnable(t, r.value)
    ensures r.Some? ==> Welcome(t, proposals, allowSafeSubset)
    ensures StagingOpen(t, execution, uuid) && Welcome(t, proposals, allowSafeSubset) ==> r.Some?
  {
    var c := Judge(t, proposals);
    WelcomeExactly(t, proposals, c, allowSafeSubset);
    if !AnyOpen(c) || (!allowSafeSubset && AnyBlocked(c)) {
      return None;
    }
    var ordered, cyclic := DependencyOrder(c);
    InRange(c, ordered, cyclic);
    var places := StagingPlaces(t, execution, uuid, |cyclic|);
    if places.None? {
      return None;
    }
    NamesStayFresh(proposals, c, uuid);
    var plan, removals, directories := PlanAround(t, names, execution, uuid, c, ordered, cyclic, places.value);
    var operations := OperationsOf(c, ordered, cyclic, places.value, plan);
    MovesInOrder(c, ordered, cyclic, places.value, directories, removals);
    var p := PreparedPlan(c, ordered + cyclic, removals, plan, operations);
    OpenAreCarried(c, ordered, cyclic, p);
    OperationsCarryThePlan(c, ordered, cyclic, places.value, directories, removals);
    PreparedDependencies(t, c, ordered, cyclic, places.value, plan);
    PreparedGroup(t, c, ordered, cyclic, places.value, plan);
    OperationsAreReady(c, ordered, cyclic, places.value, plan);
    r := Some(p);
  }

  lemma InRange(c: seq<Candidate>, ordered: seq<nat>, cyclic: seq<nat>)
    requires Members(ordered) <= OpenIndexes(c)
    ensures forall x | 0 <= x < |ordered| :: ordered[x] < |c|
  {
    forall x | 0 <= x < |ordered| ensures ordered[x] < |c| {
      assert ordered[x] in Members(ordered);
    }
  }

  lemma OperationsAreReady(c: seq<Candidate>, ordered: seq<nat>, cyclic: seq<nat>, places: seq<Path>, plan: Plan)
    requires (forall x | 0 <= x < |ordered| :: ordered[x] < |c|) && forall x | 0 <= x < |cyclic| :: cyclic[x] < |c|
    requires |places| == |cyclic|
    ensures Prepared(OperationsOf(c, ordered, cyclic, places, plan))
  {
  }

  /** Prepare, run without interruption, and roll back. The run completes exactly when no
      destination is above another one or under a removed directory, and it then leaves the
      planned tree; otherwise it stops at a step of the plan. The steps before the stop are
      what is done: they carry every file, and the rollback ends at the starting tree. */
  method RunAndRollBack(t: Tree, p: PreparedPlan) returns (completed: bool, after: Tree, restored: Tree, ghost done: seq<Step>)
    requires WellFormed(t) && Runnable(t, p)
    ensures completed <==> NoneAbove(p.plan) && NoneUnderRemoved(p.plan)
    ensures completed ==> Finished(t, p.plan, after)
    ensures if completed then done == Steps(p.plan) else done < Steps(p.plan)
    ensures Replay(done, t) == Some(after) && FilesFollow(done, t, after)
    ensures restored == t
  {
    var session := new Session(t, p.operations);
    var control: nat -> Control := _ => Proceed;
    var worker: nat -> Dispatch := _ => Performed;
    session.Start(control, worker);
    CompletesExactlyWhenClear(t, p.plan);
    completed := session.status in {Partial, Completed};
    after := session.tree;
    done := StepsInEffect(session.operations);
    session.FilesAreConserved();
    if completed {
      ReachedSteps(p.operations, session.operations, |p.operations|);
      assert p.operations[..|p.operations|] == p.operations;
    } else {
      HaltedInside(p.operations, session.operations);
    }
    var accepted := session.Rollback(worker);
    restored := session.tree;
  }

  // ---- when the two conditions of a complete run fail

  /** A folder that the plan empties. */
  ghost predicate Empties(t: Tree, names: Names, p: PreparedPlan, top: Name)
    requires TakesInOrder(p.candidates, p.order, p.plan)
    requires forall s | s in SourcesOf(p.candidates, p.order) :: s != []
  {
    var sources, destinations := SourcesOf(p.candidates, p.order), UserDestinations(p.candidates, p.order);
    top in Tops(sources) && SafeTop(t, names, sources, destinations, top)
  }

  /** A destination whose top folder is, but for case, one that the plan empties. */
  ghost predicate ReturnsInto(p: PreparedPlan, k: nat, top: Name)
    requires TakesInOrder(p.candidates, p.order, p.plan) && k < |p.order|
  {
    var d := p.candidates[p.order[k]].destination;
    d != [] && d[0] != top && Lower(d[0]) == Lower(top)
  }

  lemma UnderTop(d: Path, top: Name)
    ensures AtOrUnder(Key(d), Key([top])) <==> d != [] && Lower(d[0]) == Lower(top)
    ensures d != [] && d[0] == top ==> AtOrUnder(d, [top])
  {
    if d != [] {
      assert Key(d)[..1] == [Lower(d[0])];
      assert Key([top]) == [Lower(top)];
    }
  }

  /** The emptied folder is itself removed. */
  lemma EmptiedIsRemoved(t: Tree, names: Names, p: PreparedPlan, top: Name)
    requires CleansUp(t, names, p) && Empties(t, names, p, top)
    ensures Key([top]) in p.plan.removals
  {
    assert AtOrUnder(Key([top]), Key([top]));
    assert Key([top]) in Keys(p.removals);
    InKeys(p.removals, Key([top]));
  }

  /** The walk compares spellings, the volume does not: exactly a destination that returns
      into an emptied folder under another spelling ends up under a removed directory. */
  lemma UnderRemovedExactly(t: Tree, names: Names, p: PreparedPlan)
    requires CleansUp(t, names, p)
    ensures NoneUnderRemoved(p.plan) <==>
              (forall k, top | 0 <= k < |p.order| && Empties(t, names, p, top) :: !ReturnsInto(p, k, top))
  {
    forall k, top | 0 <= k < |p.order| && Empties(t, names, p, top) && ReturnsInto(p, k, top) ensures !NoneUnderRemoved(p.plan) {
      EmptiedIsRemoved(t, names, p, top);
      UnderTop(p.candidates[p.order[k]].destination, top);
      assert UserMoves(p.plan)[k].destination == Key(p.candidates[p.order[k]].destination);
    }
    forall k, x | 0 <= k < |p.order| && 0 <= x < |p.removals|
         && AtOrUnder(UserMoves(p.plan)[k].destination, Key(p.removals[x]))
      ensures exists top :: Empties(t, names, p, top) && ReturnsInto(p, k, top)
    {
      UnderRemovedReturns(t, names, p, k, x);
    }
  }

  lemma UnderRemovedReturns(t: Tree, names: Names, p: PreparedPlan, k: nat, x: nat)
    requires CleansUp(t, names, p) && k < |p.order| && x < |p.removals|
    requires AtOrUnder(UserMoves(p.plan)[k].destination, Key(p.removals[x]))
    ensures exists top :: Empties(t, names, p, top) && ReturnsInto(p, k, top)
  {
    var sources, destinations := SourcesOf(p.candidates, p.order), UserDestinations(p.candidates, p.order);
    assert Key(p.removals[x]) in Keys(p.removals);
    var top :| top in Tops(sources) && SafeTop(t, names, sources, destinations, top)
               && AtOrUnder(Key(p.removals[x]), Key([top]));
    AtOrUnderTransitive(UserMoves(p.plan)[k].destination, Key(p.removals[x]), Key([top]));
    UnderTop(destinations[k], top);
    assert destinations[k] in destinations;
    assert Empties(t, names, p, top) && ReturnsInto(p, k, top);
  }

  lemma HarmlessIsOpen(t: Tree, proposals: seq<Proposed>, c: seq<Candidate>, i: nat)
    requires |c| == |proposals| && GreatestMovable(t, proposals, OpenIndexes(c)) && i < |proposals| && Harmless(t, proposals, i)
    ensures !c[i].blocked
  {
    assert Movable(t, proposals, {i});
    assert i in OpenIndexes(c);
  }

  /** Nothing in the verdicts rejects a destination above another one: two proposals that
      are each harmless are both scheduled, and then no run completes. */
  lemma HarmlessYetAbove(t: Tree, proposals: seq<Proposed>, p: PreparedPlan, i: nat, j: nat)
    requires SameAsProposed(proposals, p.candidates) && CarriesOpen(p) && Runnable(t, p)
    requires GreatestMovable(t, proposals, OpenIndexes(p.candidates))
    requires i < |proposals| && j < |proposals| && Harmless(t, proposals, i) && Harmless(t, proposals, j)
    requires Above(Key(proposals[i].destination), Key(proposals[j].destination))
    ensures !NoneAbove(p.plan) && Replay(ScheduledSteps(p.operations), t).None?
  {
    HarmlessIsOpen(t, proposals, p.candidates, i);
    HarmlessIsOpen(t, proposals, p.candidates, j);
    var a :| 0 <= a < |UserMoves(p.plan)| && Carried(p.candidates[i], p.plan, a);
    var b :| 0 <= b < |UserMoves(p.plan)| && Carried(p.candidates[j], p.plan, b);
    IsUserDestination(p.plan, a);
    IsUserDestination(p.plan, b);
    CompletesExactlyWhenClear(t, p.plan);
  }

  // ---- cycles go through staging

  /** Each goes to the place of another one. */
  ghost predicate Cycle(c: seq<Candidate>, cycle: set<nat>) {
    forall i | i in cycle :: i < |c| && !c[i].blocked && Follows(c, cycle, i)
  }

  ghost predicate Follows(c: seq<Candidate>, cycle: set<nat>, i: nat)
    requires i < |c|
  {
    exists j | 0 <= j < |c| && j in cycle :: Occupies(c, j, i)
  }

  /** Whoever leaves the destination of a direct move is moved directly before. */
  lemma LeavesEarlier(t: Tree, p: PreparedPlan, i: nat, j: nat, k: nat) returns (y: nat)
    requires Verdicts(t, p.candidates) && CarriesOpen(p) && MovesPlanned(t, p.plan)
    requires i < |p.candidates| && j < |p.candidates| && !p.candidates[j].blocked && Occupies(p.candidates, j, i)
    requires k < |p.plan.direct| && Carried(p.candidates[i], p.plan, k)
    ensures y < k && Carried(p.candidates[j], p.plan, y)
  {
    TakingByPart(p.plan);
    assert HasState(t, p.candidates[j]);
    var x :| 0 <= x < k && p.plan.direct[x].source == p.plan.direct[k].destination;
    y :| 0 <= y < |UserMoves(p.plan)| && Carried(p.candidates[j], p.plan, y);
    TakenOnce(p.plan, x, y);
  }

  lemma TakenOnce(plan: Plan, x: nat, y: nat)
    requires AllMoves(Taking(plan)) && Distinct(Taking(plan)) && x < |Taking(plan)| && y < |Taking(plan)|
    requires Taking(plan)[x].source == Taking(plan)[y].source
    ensures x == y
  {
  }

  /** No member of a cycle is moved directly. */
  lemma {:induction false} CyclesAreStaged(t: Tree, p: PreparedPlan, cycle: set<nat>, i: nat, k: nat)
    requires Verdicts(t, p.candidates) && CarriesOpen(p) && MovesPlanned(t, p.plan)
    requires Cycle(p.candidates, cycle) && i in cycle && k < |UserMoves(p.plan)| && Carried(p.candidates[i], p.plan, k)
    ensures |p.plan.direct| <= k
    decreases k
  {
    if k < |p.plan.direct| {
      assert Follows(p.candidates, cycle, i);
      var j :| 0 <= j < |p.candidates| && j in cycle && Occupies(p.candidates, j, i);
      var y := LeavesEarlier(t, p, i, j, k);
      CyclesAreStaged(t, p, cycle, j, y);
    }
  }
}
