/** `prepare_execution`: from reviewed proposals to the operations of a session. */
module Preparation {
  import opened Paths
  import opened FileTree
  import opened PlanRuns
  import opened MovePlanner
  import opened SourceCleanup
  import opened CleanupPlan
  import opened Execution

  // ---- verdicts on the proposals

  /** One proposal for each file of the volume. */
  ghost predicate OnePerFile(proposals: seq<Proposed>) {
    forall i, j | 0 <= i < j < |proposals| :: Key(proposals[i].source) != Key(proposals[j].source)
  }

  ghost predicate SameAsProposed(proposals: seq<Proposed>, c: seq<Candidate>) {
    && |c| == |proposals|
    && forall i | 0 <= i < |c| ::
         c[i].id == i && c[i].source == proposals[i].source && c[i].destination == proposals[i].destination
  }

  /** An open candidate goes to a free place, or to one that another open candidate vacates
      and that it waits for. */
  ghost predicate HasPlace(t: Tree, c: seq<Candidate>, i: nat)
    requires i < |c|
  {
    var d := Key(c[i].destination);
    && (d !in t ==> AncestorsOpen(t, d) && c[i].dependencies == {})
    && (d in t ==> exists j | 0 <= j < |c| :: !c[j].blocked && Occupies(c, j, i) && c[i].dependencies == {j})
  }

  ghost predicate Verdicts(t: Tree, c: seq<Candidate>) {
    && (forall i | 0 <= i < |c| :: c[i].id == i)
    && (forall i | 0 <= i < |c| && !c[i].blocked :: HasState(t, c[i]) && HasPlace(t, c, i))
    && (forall i, j | 0 <= i < j < |c| && !c[i].blocked && !c[j].blocked ::
          Key(c[i].source) != Key(c[j].source) && Key(c[i].destination) != Key(c[j].destination))
  }

  /** A proposal that passes preflight and shares its destination with no other one that does. */
  ghost predicate Passes(t: Tree, proposals: seq<Proposed>, i: nat)
    requires i < |proposals|
  {
    && !Preflight(t, i, proposals[i]).blocked
    && forall j | 0 <= j < |proposals| && j != i && !Preflight(t, j, proposals[j]).blocked ::
         Key(proposals[j].destination) != Key(proposals[i].destination)
  }

  /** Another proposal of the set leaves the destination of `i`. */
  ghost predicate Vacated(proposals: seq<Proposed>, together: set<nat>, i: nat)
    requires i < |proposals|
  {
    exists j :: j in together && j < |proposals| && j != i && Key(proposals[j].source) == Key(proposals[i].destination)
  }

  /** Proposals that can be moved together: each goes to a place that may appear or that
      another one of them leaves. Chains, swaps and longer cycles are such sets. */
  ghost predicate Movable(t: Tree, proposals: seq<Proposed>, together: set<nat>) {
    forall i | i in together ::
      i < |proposals| && Passes(t, proposals, i)
      && (MayAppear(t, proposals[i].destination) || Vacated(proposals, together, i))
  }

  ghost predicate GreatestMovable(t: Tree, proposals: seq<Proposed>, together: set<nat>) {
    Movable(t, proposals, together) && forall others | Movable(t, proposals, others) :: others <= together
  }

  /** A proposal that can be moved on its own. */
  ghost predicate Harmless(t: Tree, proposals: seq<Proposed>, i: nat)
    requires i < |proposals|
  {
    Passes(t, proposals, i) && MayAppear(t, proposals[i].destination)
  }

  function Preflighted(t: Tree, proposals: seq<Proposed>): (c: seq<Candidate>)
    ensures |c| == |proposals| && forall i | 0 <= i < |c| :: c[i] == Preflight(t, i, proposals[i])
  {
    seq(|proposals|, i requires 0 <= i < |proposals| => Preflight(t, i, proposals[i]))
  }

  /** What collision detection leaves. */
  ghost predicate Detected(before: seq<Candidate>, after: seq<Candidate>) {
    && |before| == |after|
    && forall i | 0 <= i < |before| :: after[i] == before[i].(blocked := before[i].blocked || Collides(before, i))
  }

  ghost predicate AllResolved(t: Tree, before: seq<Candidate>, after: seq<Candidate>) {
    SameMoves(before, after) && forall i | 0 <= i < |before| :: Resolved(t, before, after, i)
  }

  lemma NoCollisionsLeft(before: seq<Candidate>, after: seq<Candidate>, i: nat, j: nat)
    requires Detected(before, after) && i < |after| && j < |after| && i != j
    requires !after[i].blocked && !after[j].blocked
    ensures Key(after[i].destination) != Key(after[j].destination)
  {
    assert !Collides(before, i);
  }

  lemma PlacesAreSettled(t: Tree, b: seq<Candidate>, r: seq<Candidate>, c: seq<Candidate>, i: nat)
    requires AllResolved(t, b, r) && Spreading(r, c) && NoneWaits(c)
    requires i < |c| && !c[i].blocked && b[i].dependencies == {}
    requires forall k | 0 <= k < |c| :: c[k].id == k == b[k].id
    ensures HasPlace(t, c, i)
  {
    assert !r[i].blocked;
    assert Resolved(t, b, r, i);
    if Key(c[i].destination) in t {
      var j := Vacating(b, |b|, Key(b[i].destination)).value;
      assert Occupies(b, j, i) && c[i].dependencies == {j};
      assert !WaitsForBlocked(c, i);
      assert c[j].id in c[i].dependencies;
      assert Occupies(c, j, i);
    }
  }

  // ---- what stays open is as much as can be moved together

  /** What is open at the end can be moved together. */
  lemma OpenIsMovable(t: Tree, proposals: seq<Proposed>, b: seq<Candidate>, r: seq<Candidate>, c: seq<Candidate>)
    requires OnePerFile(proposals) && Detected(Preflighted(t, proposals), b)
    requires AllResolved(t, b, r) && Spreading(r, c) && SameAsProposed(proposals, c) && Verdicts(t, c)
    ensures Movable(t, proposals, OpenIndexes(c))
  {
    forall i | i in OpenIndexes(c)
      ensures Passes(t, proposals, i) && (MayAppear(t, proposals[i].destination) || Vacated(proposals, OpenIndexes(c), i))
    {
      OpenMayMove(t, proposals, b, r, c, i);
    }
  }

  lemma OpenMayMove(t: Tree, proposals: seq<Proposed>, b: seq<Candidate>, r: seq<Candidate>, c: seq<Candidate>, i: nat)
    requires OnePerFile(proposals) && Detected(Preflighted(t, proposals), b) && AllResolved(t, b, r) && Spreading(r, c)
    requires SameAsProposed(proposals, c) && i < |c| && !c[i].blocked && HasPlace(t, c, i)
    ensures Passes(t, proposals, i) && (MayAppear(t, proposals[i].destination) || Vacated(proposals, OpenIndexes(c), i))
  {
    assert !r[i].blocked && Resolved(t, b, r, i);
    OpenPasses(t, proposals, b, i);
    if Key(c[i].destination) in t {
      var j :| 0 <= j < |c| && !c[j].blocked && Occupies(c, j, i);
      assert j in OpenIndexes(c);
    }
  }

  lemma OpenPasses(t: Tree, proposals: seq<Proposed>, b: seq<Candidate>, i: nat)
    requires Detected(Preflighted(t, proposals), b) && i < |b|
    ensures !b[i].blocked <==> Passes(t, proposals, i)
  {
    var p := Preflighted(t, proposals);
    if !p[i].blocked && Collides(p, i) {
      var j :| 0 <= j < |p| && j != i && !p[j].blocked && Key(p[j].destination) == Key(p[i].destination);
      assert !Preflight(t, j, proposals[j]).blocked;
    }
    if !p[i].blocked && !Passes(t, proposals, i) {
      var j :| 0 <= j < |proposals| && j != i && !Preflight(t, j, proposals[j]).blocked
               && Key(proposals[j].destination) == Key(proposals[i].destination);
      assert !p[j].blocked;
    }
  }

  /** Members of a set that can be moved together stay open when destinations are resolved,
      and wait for members only. */
  lemma {:induction false} MoverStaysOpen(t: Tree, proposals: seq<Proposed>, b: seq<Candidate>, r: seq<Candidate>, together: set<nat>,
                                          i: nat)
    requires OnePerFile(proposals) && Detected(Preflighted(t, proposals), b) && AllResolved(t, b, r)
    requires Movable(t, proposals, together) && i in together
    ensures !r[i].blocked && r[i].dependencies <= together
  {
    OpenPasses(t, proposals, b, i);
    assert b[i] == Preflight(t, i, proposals[i]);
    assert Resolved(t, b, r, i);
    if !MayAppear(t, proposals[i].destination) {
      var j :| j in together && j < |proposals| && j != i && Key(proposals[j].source) == Key(proposals[i].destination);
      OpenPasses(t, proposals, b, j);
      OnlyOccupant(t, proposals, b, j);
      assert b[j].id == j;
      if j < i {
        MoverStaysOpen(t, proposals, b, r, together, j);
      }
    }
  }

  /** With one proposal for each file, an open candidate is the only one to vacate its place. */
  lemma {:induction false} OnlyOccupant(t: Tree, proposals: seq<Proposed>, b: seq<Candidate>, j: nat)
    requires OnePerFile(proposals) && Detected(Preflighted(t, proposals), b) && j < |b| && !b[j].blocked
    ensures Key(b[j].source) in t && Vacating(b, |b|, Key(b[j].source)) == Some(j) && b[j].id == j
  {
    assert b[j] == Preflight(t, j, proposals[j]);
    var k := Vacating(b, |b|, Key(b[j].source)).value;
    assert b[k].source == Preflight(t, k, proposals[k]).source;
  }

  /** Any set that can be moved together stays open as a whole. */
  lemma MovableStaysOpen(t: Tree, proposals: seq<Proposed>, b: seq<Candidate>, r: seq<Candidate>, c: seq<Candidate>,
                         together: set<nat>)
    requires OnePerFile(proposals) && Detected(Preflighted(t, proposals), b) && AllResolved(t, b, r) && Spreading(r, c)
    requires Movable(t, proposals, together)
    ensures together <= OpenIndexes(c)
  {
    var others := set k | 0 <= k < |r| && k !in together;
    forall k | k in together ensures k < |r| && !r[k].blocked && r[k].dependencies <= together {
      MoverStaysOpen(t, proposals, b, r, together, k);
    }
    forall k | 0 <= k < |r| ensures r[k].id == k {
      assert b[k].id == Preflight(t, k, proposals[k]).id;
    }
    assert ClosedVerdicts(r, others);
    assert Within(c, others);
  }

  lemma VerdictsAreSound(t: Tree, proposals: seq<Proposed>, b: seq<Candidate>, r: seq<Candidate>, c: seq<Candidate>)
    requires OnePerFile(proposals) && Detected(Preflighted(t, proposals), b)
    requires AllResolved(t, b, r) && Spreading(r, c) && NoneWaits(c)
    ensures SameAsProposed(proposals, c) && Verdicts(t, c)
  {
    var p := Preflighted(t, proposals);
    forall i | 0 <= i < |c| ensures c[i].id == i == b[i].id && b[i].dependencies == {}
      ensures c[i] == p[i].(blocked := c[i].blocked, dependencies := c[i].dependencies)
      ensures b[i].blocked ==> c[i].blocked
    {
      assert b[i] == p[i].(blocked := b[i].blocked);
      assert r[i] == b[i].(blocked := r[i].blocked, dependencies := r[i].dependencies);
      assert c[i] == r[i].(blocked := c[i].blocked, dependencies := c[i].dependencies);
    }
    forall i | 0 <= i < |c| && !c[i].blocked ensures HasState(t, c[i]) && HasPlace(t, c, i) {
      PlacesAreSettled(t, b, r, c, i);
    }
    forall i, j | 0 <= i < j < |c| && !c[i].blocked && !c[j].blocked
      ensures Key(c[i].source) != Key(c[j].source) && Key(c[i].destination) != Key(c[j].destination)
    {
      NoCollisionsLeft(p, b, i, j);
    }
  }

  /** Preflight, collisions, occupied destinations and dependent blocks, in that order:
      what stays open is safe, and it is the greatest set that can be moved together. */
  method Judge(t: Tree, proposals: seq<Proposed>) returns (c: seq<Candidate>)
    requires OnePerFile(proposals)
    ensures SameAsProposed(proposals, c) && Verdicts(t, c)
    ensures GreatestMovable(t, proposals, OpenIndexes(c))
  {
    var p := Preflighted(t, proposals);
    var a := new Candidate[|p|](i requires 0 <= i < |p| => p[i]);
    assert a[..] == p;
    DetectPlanCollisions(a);
    ghost var b := a[..];
    ResolveDestinationDependencies(t, a);
    ghost var r := a[..];
    PropagateDependencyBlocks(a);
    c := a[..];
    VerdictsAreSound(t, proposals, b, r, c);
    OpenIsMovable(t, proposals, b, r, c);
    forall together | Movable(t, proposals, together) ensures together <= OpenIndexes(c) {
      MovableStaysOpen(t, proposals, b, r, c, together);
    }
  }

  // ---- staging places

  /** A place in the staging folder of this execution, named at random. */
  ghost predicate Staged(t: Tree, execution: Name, uuid: nat -> Name, place: Path) {
    && Key(place) !in t && AncestorsOpen(t, Key(place))
    && exists k: nat :: place == [STAGING, execution, uuid(k)]
  }

  /** The next random name can be used. */
  predicate Usable(t: Tree, execution: Name, name: Name, reserved: seq<Path>) {
    var place := [STAGING, execution, name];
    (forall x | 0 <= x < |reserved| :: Key(reserved[x]) != Key(place)) && Key(place) !in t && AncestorsOpen(t, Key(place))
  }

  /** `unique_staging_path`: the first usable one of sixteen random names. */
  method UniqueStagingPath(t: Tree, execution: Name, uuid: nat -> Name, first: nat, reserved: seq<Path>)
    returns (place: Option<Path>, next: nat)
    ensures first < next <= first + 16
    ensures forall k | first <= k < next - 1 :: !Usable(t, execution, uuid(k), reserved)
    ensures place.Some? <==> Usable(t, execution, uuid(next - 1), reserved)
    ensures place.Some? ==> place.value == [STAGING, execution, uuid(next - 1)]
    ensures place.None? ==> next == first + 16
    ensures place.Some? ==> Staged(t, execution, uuid, place.value) && Key(place.value) !in Keys(reserved)
  {
    next := first;
    while next < first + 16
      invariant first <= next <= first + 16
      invariant forall k | first <= k < next :: !Usable(t, execution, uuid(k), reserved)
    {
      var candidate := [STAGING, execution, uuid(next)];
      next := next + 1;
      if Usable(t, execution, uuid(next - 1), reserved) {
        return Some(candidate), next;
      }
    }
    place := None;
  }

  ghost predicate AllStaged(t: Tree, execution: Name, uuid: nat -> Name, places: seq<Path>) {
    DistinctKeys(places) && forall x | 0 <= x < |places| :: Staged(t, execution, uuid, places[x])
  }

  /** The random names differ, and the staging folder of the execution has room for each. */
  ghost predicate StagingOpen(t: Tree, execution: Name, uuid: nat -> Name) {
    && (forall j: nat, k: nat | j < k :: Lower(uuid(j)) != Lower(uuid(k)))
    && (forall k: nat :: Usable(t, execution, uuid(k), []))
  }

  /** Every place so far has one of the names that were drawn. */
  ghost predicate DrawnBefore(execution: Name, uuid: nat -> Name, next: nat, places: seq<Path>) {
    forall x | 0 <= x < |places| :: exists k: nat :: k < next && places[x] == [STAGING, execution, uuid(k)]
  }

  lemma NextNameIsUsable(t: Tree, execution: Name, uuid: nat -> Name, next: nat, places: seq<Path>)
    requires StagingOpen(t, execution, uuid) && DrawnBefore(execution, uuid, next, places)
    ensures Usable(t, execution, uuid(next), places)
  {
    assert Usable(t, execution, uuid(next), []);
    forall x | 0 <= x < |places| ensures Key(places[x]) != Key([STAGING, execution, uuid(next)]) {
      var k: nat :| k < next && places[x] == [STAGING, execution, uuid(k)];
      assert Key(places[x])[2] == Lower(uuid(k)) && Key([STAGING, execution, uuid(next)])[2] == Lower(uuid(next));
    }
  }

  lemma DrawnNext(execution: Name, uuid: nat -> Name, next: nat, places: seq<Path>, later: nat)
    requires DrawnBefore(execution, uuid, next, places) && next < later
    ensures DrawnBefore(execution, uuid, later, places + [[STAGING, execution, uuid(later - 1)]])
  {
    var more := places + [[STAGING, execution, uuid(later - 1)]];
    forall x | 0 <= x < |more| ensures exists k: nat :: k < later && more[x] == [STAGING, execution, uuid(k)] {
      if x < |places| {
        var k: nat :| k < next && places[x] == [STAGING, execution, uuid(k)];
        assert k < later && more[x] == [STAGING, execution, uuid(k)];
      } else {
        var k: nat := later - 1;
        assert k < later && more[x] == [STAGING, execution, uuid(k)];
      }
    }
  }

  /** One staging place for each of `n` files; an open staging folder always has them. */
  method StagingPlaces(t: Tree, execution: Name, uuid: nat -> Name, n: nat) returns (r: Option<seq<Path>>)
    ensures r.Some? ==> |r.value| == n && AllStaged(t, execution, uuid, r.value)
    ensures n == 0 || StagingOpen(t, execution, uuid) ==> r.Some?
  {
    var places: seq<Path> := [];
    var next := 0;
    while |places| < n
      invariant |places| <= n && AllStaged(t, execution, uuid, places)
      invariant DrawnBefore(execution, uuid, next, places)
    {
      ghost var first := next;
      var place: Option<Path>;
      place, next := UniqueStagingPath(t, execution, uuid, next, places);
      if place.None? {
        if StagingOpen(t, execution, uuid) {
          NextNameIsUsable(t, execution, uuid, first, places);
        }
        return None;
      }
      KeysOfOne(place.value);
      DistinctConcat(places, [place.value]);
      DrawnNext(execution, uuid, first, places, next);
      places := places + [place.value];
    }
    return Some(places);
  }

  // ---- the plan

  ghost predicate Indexes(c: seq<Candidate>, list: seq<nat>) {
    forall x | 0 <= x < |list| :: list[x] < |c| && !c[list[x]].blocked
  }

  function DirectMoves(c: seq<Candidate>, list: seq<nat>): (moves: seq<Step>)
    requires forall x | 0 <= x < |list| :: list[x] < |c|
    ensures |moves| == |list|
  {
    seq(|list|, x requires 0 <= x < |list| => Move(Key(c[list[x]].source), Key(c[list[x]].destination), c[list[x]].state))
  }

  function StageMoves(c: seq<Candidate>, list: seq<nat>, places: seq<Path>): (moves: seq<Step>)
    requires |places| == |list| && forall x | 0 <= x < |list| :: list[x] < |c|
    ensures |moves| == |list|
  {
    seq(|list|, x requires 0 <= x < |list| => Move(Key(c[list[x]].source), Key(places[x]), c[list[x]].state))
  }

  function FinalMoves(c: seq<Candidate>, list: seq<nat>, places: seq<Path>): (moves: seq<Step>)
    requires |places| == |list| && forall x | 0 <= x < |list| :: list[x] < |c|
    ensures |moves| == |list|
  {
    seq(|list|, x requires 0 <= x < |list| => Move(Key(places[x]), Key(c[list[x]].destination), c[list[x]].state))
  }

  function KeyList(list: seq<Path>): (keys: seq<Path>)
    ensures |keys| == |list| && forall x | 0 <= x < |list| :: keys[x] == Key(list[x])
  {
    seq(|list|, x requires 0 <= x < |list| => Key(list[x]))
  }

  function PlanOf(c: seq<Candidate>, ordered: seq<nat>, cyclic: seq<nat>, places: seq<Path>,
                  directories: seq<Path>, removals: seq<Path>): (plan: Plan)
    requires (forall x | 0 <= x < |ordered| :: ordered[x] < |c|) && forall x | 0 <= x < |cyclic| :: cyclic[x] < |c|
    requires |places| == |cyclic|
  {
    Plan(KeyList(directories), DirectMoves(c, ordered), StageMoves(c, cyclic, places), FinalMoves(c, cyclic, places),
      KeyList(removals))
  }

  /** What `dependency_order` returns. */
  ghost predicate Arranged(c: seq<Candidate>, ordered: seq<nat>, cyclic: seq<nat>) {
    && NoRepeats(cyclic) && Splits(OpenIndexes(c), ordered, Members(cyclic))
    && Topological(c, ordered, OpenIndexes(c))
    && (forall x | 0 <= x < |ordered| :: ordered[x] < |c|) && (forall x | 0 <= x < |cyclic| :: cyclic[x] < |c|)
  }

  /** The moves of the plan are those of the open candidates: ordered ones, then cyclic. */
  ghost predicate TakesInOrder(c: seq<Candidate>, all: seq<nat>, plan: Plan) {
    && StagesFeedFinals(plan) && |Taking(plan)| == |UserMoves(plan)| == |all|
    && forall k | 0 <= k < |all| ::
         && all[k] < |c| && !c[all[k]].blocked
         && Taking(plan)[k].source == Key(c[all[k]].source) && Taking(plan)[k].expected == c[all[k]].state
         && UserMoves(plan)[k].destination == Key(c[all[k]].destination)
  }

  lemma ListedAreOpen(c: seq<Candidate>, ordered: seq<nat>, cyclic: seq<nat>)
    requires Arranged(c, ordered, cyclic)
    ensures Indexes(c, ordered + cyclic) && NoRepeats(ordered + cyclic)
  {
    var all := ordered + cyclic;
    forall x | 0 <= x < |all| ensures all[x] in OpenIndexes(c) {
      if x < |ordered| {
        assert ordered[x] in Members(ordered);
      } else {
        assert cyclic[x - |ordered|] in Members(cyclic);
      }
    }
    forall x, y | 0 <= x < y < |all| ensures all[x] != all[y] {
      if x < |ordered| <= y {
        assert ordered[x] in Members(ordered) && cyclic[y - |ordered|] in Members(cyclic);
      }
    }
  }

  lemma OpenAreListed(c: seq<Candidate>, ordered: seq<nat>, cyclic: seq<nat>, i: nat)
    requires Arranged(c, ordered, cyclic) && i < |c| && !c[i].blocked
    ensures exists k :: 0 <= k < |ordered + cyclic| && (ordered + cyclic)[k] == i
  {
    assert i in OpenIndexes(c);
    if i in Members(ordered) {
      var x :| 0 <= x < |ordered| && ordered[x] == i;
      assert (ordered + cyclic)[x] == i;
    } else {
      var x :| 0 <= x < |cyclic| && cyclic[x] == i;
      assert (ordered + cyclic)[|ordered| + x] == i;
    }
  }

  lemma MovesInOrder(c: seq<Candidate>, ordered: seq<nat>, cyclic: seq<nat>, places: seq<Path>,
                     directories: seq<Path>, removals: seq<Path>)
    requires Arranged(c, ordered, cyclic) && |places| == |cyclic|
    ensures TakesInOrder(c, ordered + cyclic, PlanOf(c, ordered, cyclic, places, directories, removals))
  {
    var plan, all := PlanOf(c, ordered, cyclic, places, directories, removals), ordered + cyclic;
    ListedAreOpen(c, ordered, cyclic);
    forall k | 0 <= k < |all|
      ensures Taking(plan)[k].source == Key(c[all[k]].source) && Taking(plan)[k].expected == c[all[k]].state
      ensures UserMoves(plan)[k].destination == Key(c[all[k]].destination)
    {
      if k >= |ordered| {
        assert Taking(plan)[k] == plan.stages[k - |ordered|] && UserMoves(plan)[k] == plan.finals[k - |ordered|];
      } else {
        assert Taking(plan)[k] == plan.direct[k] == UserMoves(plan)[k];
      }
    }
  }

  // ---- the moves satisfy what a run needs

  /** The random names occur in no destination. */
  ghost predicate FreshNames(c: seq<Candidate>, uuid: nat -> Name) {
    forall i, k: nat | 0 <= i < |c| :: Lower(uuid(k)) !in Key(c[i].destination)
  }

  lemma StagingIsLower()
    ensures Lower(STAGING) == STAGING
  {
    assert forall i | 0 <= i < |STAGING| :: LowerChar(STAGING[i]) == STAGING[i];
  }

  lemma PlaceIsStaging(t: Tree, execution: Name, uuid: nat -> Name, place: Path)
    requires Staged(t, execution, uuid, place)
    ensures StagingPlace(t, Key(place)) && exists k: nat :: Key(place)[2] == Lower(uuid(k))
  {
    StagingIsLower();
    var k: nat :| place == [STAGING, execution, uuid(k)];
    assert Key(place)[2] == Lower(uuid(k));
  }

  lemma PlaceIsFresh(t: Tree, execution: Name, uuid: nat -> Name, c: seq<Candidate>, place: Path, i: nat)
    requires Staged(t, execution, uuid, place) && FreshNames(c, uuid) && i < |c|
    ensures !AtOrUnder(Key(c[i].destination), Key(place))
  {
    PlaceIsStaging(t, execution, uuid, place);
    var k: nat :| Key(place)[2] == Lower(uuid(k));
    var d := Key(c[i].destination);
    if |d| > 2 {
      assert d[2] in d;
    }
  }

  lemma DistinctTargets(t: Tree, c: seq<Candidate>, all: seq<nat>, plan: Plan)
    requires Verdicts(t, c) && TakesInOrder(c, all, plan) && NoRepeats(all)
    ensures forall i, j | 0 <= i < j < |all| :: Taking(plan)[i].source != Taking(plan)[j].source
    ensures forall i, j | 0 <= i < j < |all| :: UserMoves(plan)[i].destination != UserMoves(plan)[j].destination
  {
    forall i, j | 0 <= i < j < |all|
      ensures Taking(plan)[i].source != Taking(plan)[j].source
      ensures UserMoves(plan)[i].destination != UserMoves(plan)[j].destination
    {
      assert all[i] < all[j] || all[j] < all[i];
    }
  }

  /** Where the stages of a plan put their files. */
  ghost predicate StagesAt(plan: Plan, places: seq<Path>)
    requires StagesFeedFinals(plan)
  {
    |plan.stages| == |places| && forall x | 0 <= x < |places| :: plan.stages[x].destination == Key(places[x])
  }

  ghost predicate Apart(plan: Plan)
    requires StagesFeedFinals(plan)
  {
    forall k, i | 0 <= k < |UserMoves(plan)| && 0 <= i < |plan.stages| ::
      !AtOrUnder(UserMoves(plan)[k].destination, plan.stages[i].destination)
  }

  lemma StagesApart(t: Tree, execution: Name, uuid: nat -> Name, c: seq<Candidate>, all: seq<nat>, plan: Plan, places: seq<Path>)
    requires TakesInOrder(c, all, plan) && StagesAt(plan, places)
    requires AllStaged(t, execution, uuid, places) && FreshNames(c, uuid)
    ensures Apart(plan) && forall x | 0 <= x < |plan.stages| :: StagingPlace(t, plan.stages[x].destination)
  {
    forall x | 0 <= x < |places|
      ensures StagingPlace(t, plan.stages[x].destination)
      ensures forall k | 0 <= k < |all| :: !AtOrUnder(UserMoves(plan)[k].destination, plan.stages[x].destination)
    {
      PlaceIsStaging(t, execution, uuid, places[x]);
      forall k | 0 <= k < |all| ensures !AtOrUnder(UserMoves(plan)[k].destination, plan.stages[x].destination) {
        PlaceIsFresh(t, execution, uuid, c, places[x], all[k]);
      }
    }
  }

  lemma TakingIsDistinct(t: Tree, c: seq<Candidate>, all: seq<nat>, plan: Plan, places: seq<Path>)
    requires Verdicts(t, c) && TakesInOrder(c, all, plan) && NoRepeats(all)
    requires StagesAt(plan, places) && DistinctKeys(places) && Apart(plan)
    ensures Distinct(Taking(plan))
  {
    DistinctTargets(t, c, all, plan);
    TakingByPart(plan);
    forall i, j | 0 <= i < j < |all| ensures Taking(plan)[i].destination != Taking(plan)[j].destination {
      TakenApart(plan, places, i, j);
    }
  }

  lemma TakenApart(plan: Plan, places: seq<Path>, i: nat, j: nat)
    requires StagesFeedFinals(plan) && StagesAt(plan, places) && DistinctKeys(places) && Apart(plan)
    requires i < j < |Taking(plan)|
    requires UserMoves(plan)[i].destination != UserMoves(plan)[j].destination
    ensures Taking(plan)[i].destination != Taking(plan)[j].destination
  {
    TakingByPart(plan);
    var n := |plan.direct|;
    if i >= n {
      assert Key(places[i - n]) != Key(places[j - n]);
    } else if j >= n {
      var d := UserMoves(plan)[i].destination;
      assert !AtOrUnder(d, plan.stages[j - n].destination) && AtOrUnder(d, d);
    }
  }

  /** A direct destination that is occupied belongs to an earlier direct move. */
  lemma OccupantGoesFirst(t: Tree, c: seq<Candidate>, ordered: seq<nat>, cyclic: seq<nat>, plan: Plan, x: nat)
    requires Verdicts(t, c) && Arranged(c, ordered, cyclic) && TakesInOrder(c, ordered + cyclic, plan)
    requires |plan.direct| == |ordered| && x < |ordered| && Key(c[ordered[x]].destination) in t
    ensures exists y | 0 <= y < x :: plan.direct[y].source == Key(c[ordered[x]].destination)
  {
    var i := ordered[x];
    assert (ordered + cyclic)[x] == i;
    assert HasPlace(t, c, i);
    var j :| 0 <= j < |c| && !c[j].blocked && Occupies(c, j, i) && c[i].dependencies == {j};
    ListedBefore(c, ordered, cyclic, x, j);
    var y :| 0 <= y < x && ordered[y] == j;
    assert (ordered + cyclic)[y] == j && Taking(plan)[y] == plan.direct[y];
  }

  lemma ListedBefore(c: seq<Candidate>, ordered: seq<nat>, cyclic: seq<nat>, x: nat, j: nat)
    requires Arranged(c, ordered, cyclic) && x < |ordered| && j < |c| && !c[j].blocked
    requires c[j].id in c[ordered[x]].dependencies
    ensures exists y :: 0 <= y < x && ordered[y] == j
  {
    var others := OpenIndexes(c) - Members(ordered[..x]);
    assert WaitsForNone(c, ordered[x], others);
    assert forall m | m in others :: c[m].id in IdsOf(c, others);
    assert j in OpenIndexes(c);
    var y :| 0 <= y < x && ordered[..x][y] == j;
    assert ordered[y] == j;
  }

  lemma OccupantIsTaken(t: Tree, c: seq<Candidate>, ordered: seq<nat>, cyclic: seq<nat>, plan: Plan, i: nat)
    requires Verdicts(t, c) && Arranged(c, ordered, cyclic) && TakesInOrder(c, ordered + cyclic, plan)
    requires i < |c| && !c[i].blocked && Key(c[i].destination) in t
    ensures Key(c[i].destination) in Sources(Taking(plan))
  {
    assert HasPlace(t, c, i);
    var j :| 0 <= j < |c| && !c[j].blocked && Occupies(c, j, i) && c[i].dependencies == {j};
    OpenAreListed(c, ordered, cyclic, j);
    var k :| 0 <= k < |ordered + cyclic| && (ordered + cyclic)[k] == j;
    assert Taking(plan)[k].source == Key(c[j].source);
  }

  lemma PreparedMovesArePlanned(t: Tree, execution: Name, uuid: nat -> Name, c: seq<Candidate>, ordered: seq<nat>,
                                cyclic: seq<nat>, places: seq<Path>, directories: seq<Path>, removals: seq<Path>)
    requires Verdicts(t, c) && Arranged(c, ordered, cyclic) && |places| == |cyclic|
    requires AllStaged(t, execution, uuid, places) && FreshNames(c, uuid)
    ensures MovesPlanned(t, PlanOf(c, ordered, cyclic, places, directories, removals))
  {
    var plan, all := PlanOf(c, ordered, cyclic, places, directories, removals), ordered + cyclic;
    MovesInOrder(c, ordered, cyclic, places, directories, removals);
    ListedAreOpen(c, ordered, cyclic);
    StagesApart(t, execution, uuid, c, all, plan, places);
    TakingIsDistinct(t, c, all, plan, places);
    DistinctTargets(t, c, all, plan);
    FilesAreTaken(t, c, all, plan);
    forall x | 0 <= x < |plan.direct| && plan.direct[x].destination in t
      ensures exists y | 0 <= y < x :: plan.direct[y].source == plan.direct[x].destination
    {
      OccupantGoesFirst(t, c, ordered, cyclic, plan, x);
    }
    forall x | 0 <= x < |plan.finals| && plan.finals[x].destination in t
      ensures plan.finals[x].destination in Sources(Taking(plan))
    {
      assert all[|ordered| + x] == cyclic[x];
      OccupantIsTaken(t, c, ordered, cyclic, plan, cyclic[x]);
    }
  }

  lemma FilesAreTaken(t: Tree, c: seq<Candidate>, all: seq<nat>, plan: Plan)
    requires Verdicts(t, c) && TakesInOrder(c, all, plan)
    ensures forall k | 0 <= k < |Taking(plan)| ::
              Taking(plan)[k].source in t && t[Taking(plan)[k].source] == File(Taking(plan)[k].expected)
    ensures forall k | 0 <= k < |UserMoves(plan)| :: UserMoves(plan)[k].destination != []
  {
    forall k | 0 <= k < |all|
      ensures Taking(plan)[k].source in t && t[Taking(plan)[k].source] == File(Taking(plan)[k].expected)
      ensures UserMoves(plan)[k].destination != []
    {
      assert HasState(t, c[all[k]]);
    }
  }

  // ---- so do the directories

  ghost predicate DestinationsAre(plan: Plan, destinations: seq<Path>)
    requires StagesFeedFinals(plan)
  {
    && (forall e | e in destinations :: IsDestination(plan, Key(e)))
    && (forall d | IsDestination(plan, d) :: exists e :: e in destinations && Key(e) == d)
  }

  lemma InKeys(list: seq<Path>, k: Path)
    requires k in Keys(list)
    ensures exists x :: 0 <= x < |list| && KeyList(list)[x] == k
    ensures k in KeyList(list)
  {
    var x :| 0 <= x < |list| && Key(list[x]) == k;
    assert KeyList(list)[x] == k;
  }

  lemma DirectoriesArePlanned(t: Tree, plan: Plan, destinations: seq<Path>, directories: seq<Path>)
    requires StagesFeedFinals(plan) && DestinationsAre(plan, destinations)
    requires plan.directories == KeyList(directories)
    requires Keys(directories) == Missing(t, destinations) && DistinctKeys(directories)
    requires Ordered(false, directories) && PrefixesOpen(t, destinations)
    ensures DirectoriesPlanned(t, plan)
  {
    forall k | 0 <= k < |plan.directories|
      ensures plan.directories[k] != [] && plan.directories[k] !in t
      ensures exists d :: IsDestination(plan, d) && Above(plan.directories[k], d)
    {
      DirectoryIsNeeded(t, plan, destinations, directories, k);
    }
    forall d, p | IsDestination(plan, d) && p != [] && Above(p, d) ensures IsDirectory(t, p) || p in plan.directories {
      var e :| e in destinations && Key(e) == d;
      assert p == Key(e)[..|p|];
      assert p in PrefixKeys(destinations);
      if p !in t {
        InKeys(directories, p);
      }
    }
    forall i, j | 0 <= i < j < |directories| ensures |directories[i]| <= |directories[j]| {
      assert InOrder(false, directories[i], directories[j]);
    }
  }

  lemma DirectoryIsNeeded(t: Tree, plan: Plan, destinations: seq<Path>, directories: seq<Path>, k: nat)
    requires StagesFeedFinals(plan) && DestinationsAre(plan, destinations)
    requires Keys(directories) == Missing(t, destinations) && k < |directories|
    ensures Key(directories[k]) != [] && Key(directories[k]) !in t
    ensures exists d :: IsDestination(plan, d) && Above(Key(directories[k]), d)
  {
    assert Key(directories[k]) in Keys(directories);
    var d, n :| d in destinations && 1 <= n < |d| && Key(d)[..n] == Key(directories[k]);
    assert Above(Key(directories[k]), Key(d));
  }

  function UserDestinations(c: seq<Candidate>, all: seq<nat>): (r: seq<Path>)
    requires forall x | 0 <= x < |all| :: all[x] < |c|
    ensures |r| == |all| && forall x | 0 <= x < |all| :: r[x] == c[all[x]].destination
  {
    seq(|all|, x requires 0 <= x < |all| => c[all[x]].destination)
  }

  lemma DestinationsOfThePlan(c: seq<Candidate>, all: seq<nat>, plan: Plan, places: seq<Path>)
    requires TakesInOrder(c, all, plan) && StagesAt(plan, places)
    ensures DestinationsAre(plan, UserDestinations(c, all) + places)
  {
    var destinations := UserDestinations(c, all) + places;
    forall x | 0 <= x < |destinations| ensures IsDestination(plan, Key(destinations[x])) {
      if x < |all| {
        IsUserDestination(plan, x);
        assert UserMoves(plan)[x].destination == Key(destinations[x]);
      } else {
        assert plan.stages[x - |all|].destination == Key(destinations[x]);
      }
    }
    forall d | IsDestination(plan, d) ensures exists e :: e in destinations && Key(e) == d {
      if d in Destinations(plan.stages) {
        var x :| 0 <= x < |plan.stages| && plan.stages[x].destination == d;
        assert destinations[|all| + x] == places[x];
      } else {
        UserDestination(plan, d);
        var k :| 0 <= k < |UserMoves(plan)| && UserMoves(plan)[k].destination == d;
        assert destinations[k] == c[all[k]].destination;
      }
    }
  }

  /** No needed prefix is anything but a directory: `plan_directories` cannot fail. */
  lemma PrefixesAreOpen(t: Tree, execution: Name, uuid: nat -> Name, c: seq<Candidate>, all: seq<nat>, places: seq<Path>)
    requires WellFormed(t) && Verdicts(t, c) && Indexes(c, all) && AllStaged(t, execution, uuid, places)
    ensures PrefixesOpen(t, UserDestinations(c, all) + places)
  {
    var destinations := UserDestinations(c, all) + places;
    forall x, n | 0 <= x < |destinations| && 1 <= n < |destinations[x]| && Key(destinations[x])[..n] in t
      ensures t[Key(destinations[x])[..n]].Directory?
    {
      var d := Key(destinations[x]);
      if x < |all| {
        assert HasPlace(t, c, all[x]);
        if d in t {
          AncestorsAreDirectories(t, d, n);
        }
      } else {
        assert Staged(t, execution, uuid, places[x - |all|]);
      }
    }
  }

  lemma DestinationsAreSound(t: Tree, execution: Name, uuid: nat -> Name, c: seq<Candidate>, all: seq<nat>, places: seq<Path>)
    requires Verdicts(t, c) && Indexes(c, all) && AllStaged(t, execution, uuid, places)
    requires SoundNames([execution]) && forall k: nat :: SoundNames([uuid(k)])
    ensures forall d | d in UserDestinations(c, all) + places :: SoundNames(d)
  {
    var destinations := UserDestinations(c, all) + places;
    forall x | 0 <= x < |destinations| ensures SoundNames(destinations[x]) {
      if x < |all| {
        assert HasState(t, c[all[x]]);
      } else {
        PlaceIsSound(t, execution, uuid, places[x - |all|]);
      }
    }
  }

  lemma PlaceIsSound(t: Tree, execution: Name, uuid: nat -> Name, place: Path)
    requires Staged(t, execution, uuid, place)
    requires SoundNames([execution]) && forall k: nat :: SoundNames([uuid(k)])
    ensures SoundNames(place)
  {
    var k: nat :| place == [STAGING, execution, uuid(k)];
    assert SoundNames([uuid(k)]);
    assert IsName([execution][0]) && IsName([uuid(k)][0]);
    assert !DrivePrefixed([execution][0]) && !DrivePrefixed([uuid(k)][0]);
  }

  // ---- and the removals

  function SourcesOf(c: seq<Candidate>, all: seq<nat>): set<Path>
    requires forall x | 0 <= x < |all| :: all[x] < |c|
  {
    set x | 0 <= x < |all| :: c[all[x]].source
  }

  lemma SourcesAreKnown(t: Tree, c: seq<Candidate>, all: seq<nat>)
    requires Verdicts(t, c) && Indexes(c, all)
    ensures KnownSources(t, SourcesOf(c, all))
  {
    forall x | 0 <= x < |all| ensures IsRelative(c[all[x]].source) && HasFile(t, Key(c[all[x]].source)) {
      assert HasState(t, c[all[x]]);
    }
    forall x, y | 0 <= x < |all| && 0 <= y < |all| && Key(c[all[x]].source) == Key(c[all[y]].source)
      ensures c[all[x]].source == c[all[y]].source
    {
      assert !(all[x] < all[y]) && !(all[y] < all[x]);
    }
  }

  ghost predicate CleanupOf(t: Tree, names: Names, sources: set<Path>, destinations: seq<Path>, removals: seq<Path>) {
    && (forall s | s in sources :: s != [])
    && Cleaned(t, names, sources, destinations, Tops(sources), removals) && Ordered(true, removals)
  }

  lemma RemovalsArePlanned(t: Tree, names: Names, c: seq<Candidate>, all: seq<nat>, plan: Plan,
                           destinations: seq<Path>, removals: seq<Path>)
    requires Spelled(t, names) && TakesInOrder(c, all, plan) && plan.removals == KeyList(removals)
    requires CleanupOf(t, names, SourcesOf(c, all), destinations, removals)
    ensures RemovalsPlanned(t, plan)
  {
    var sources := SourcesOf(c, all);
    RemovalsAreDirectories(t, names, sources, destinations, removals);
    forall x, p | 0 <= x < |removals| && p in t && AtOrUnder(p, Key(removals[x]))
      ensures p in plan.removals || p in Sources(Taking(plan))
    {
      InsideRemovedTree(t, names, sources, destinations, removals, x, p);
      RemovedOrTaken(c, all, plan, removals, p);
    }
  }

  lemma RemovalsAreDirectories(t: Tree, names: Names, sources: set<Path>, destinations: seq<Path>, removals: seq<Path>)
    requires CleanupOf(t, names, sources, destinations, removals)
    ensures forall i, j | 0 <= i < j < |removals| ::
              KeyList(removals)[i] != KeyList(removals)[j] && |KeyList(removals)[i]| >= |KeyList(removals)[j]|
    ensures forall r | r in KeyList(removals) :: IsDirectory(t, r) && r != [] && r[0] != STAGING
  {
    forall i, j | 0 <= i < j < |removals| ensures |removals[i]| >= |removals[j]| {
      assert InOrder(true, removals[i], removals[j]);
    }
    forall x | 0 <= x < |removals|
      ensures IsDirectory(t, Key(removals[x])) && Key(removals[x]) != [] && Key(removals[x])[0] != STAGING
    {
      assert Key(removals[x]) in Keys(removals);
      NotStaging(removals[x]);
    }
  }

  lemma RemovedOrTaken(c: seq<Candidate>, all: seq<nat>, plan: Plan, removals: seq<Path>, p: Path)
    requires TakesInOrder(c, all, plan)
    requires p in Keys(removals) || exists s :: s in SourcesOf(c, all) && Key(s) == p
    ensures p in KeyList(removals) || p in Sources(Taking(plan))
  {
    if p in Keys(removals) {
      InKeys(removals, p);
    } else {
      var s :| s in SourcesOf(c, all) && Key(s) == p;
      var k :| 0 <= k < |all| && c[all[k]].source == s;
      assert Taking(plan)[k].source == p;
    }
  }

  lemma NotStaging(path: Path)
    requires IsRelative(path) && !Protected(path[0])
    ensures Key(path) != [] && Key(path)[0] != STAGING
  {
    assert STAGING[0] == '.' && Lower(path[0])[0] == LowerChar(path[0][0]);
  }

  /** Everything in a removed tree is itself removed, or is a planned source. */
  lemma InsideRemovedTree(t: Tree, names: Names, sources: set<Path>, destinations: seq<Path>, removals: seq<Path>,
                          x: nat, p: Path)
    requires Spelled(t, names) && CleanupOf(t, names, sources, destinations, removals)
    requires x < |removals| && p in t && AtOrUnder(p, Key(removals[x]))
    ensures p in Keys(removals) || exists s :: s in sources && Key(s) == p
  {
    assert Key(removals[x]) in Keys(removals);
    var top :| top in Tops(sources) && SafeTop(t, names, sources, destinations, top) && AtOrUnder(Key(removals[x]), Key([top]));
    AtOrUnderTransitive(p, Key(removals[x]), Key([top]));
    assert Below([top], p, t);
    assert CaredFor(t, names, [top], sources, p);
    if !t[p].Directory? {
      SpellingIsFiled(t, names, [top], p);
    }
  }
}
