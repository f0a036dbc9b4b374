/** Concrete plans: where a run fails although every proposal is harmless, and a swap that
    completes. */
module PlanExamples {
  import opened Paths
  import opened FileTree
  import opened PlanRuns
  import opened MovePlanner
  import opened SourceCleanup
  import opened CleanupPlan
  import opened Execution
  import opened Preparation
  import opened PreparedRun

  const STATE := Fingerprint(1, 1, 1, 1)

  /** A file at the top of the root, and a proposal that moves it where nothing is. */
  lemma MoverIsHarmless(t: Tree, proposals: seq<Proposed>, i: nat, name: Name, destination: Path)
    requires i < |proposals| && proposals[i] == Proposed([name], destination, true, 1, None, None, false, false, false)
    requires SoundNames([name]) && Key([name]) == [name] && [name] in t && t[[name]] == File(STATE)
    requires SoundNames(destination) && destination[0] != STAGING
    requires forall n | 1 <= n <= |destination| :: Key(destination)[..n] !in t
    requires forall j | 0 <= j < |proposals| && j != i :: Key(proposals[j].destination) != Key(destination)
    ensures Harmless(t, proposals, i)
  {
    assert Key(destination)[..|destination|] == Key(destination);
  }

  /** Such proposals exist: `a` and `a/x` as destinations of two files. */
  lemma HarmlessYetAboveExample()
    ensures var t: Tree := map[["p"] := File(STATE), ["q"] := File(STATE)];
            var p := Proposed(["p"], ["a"], true, 1, None, None, false, false, false);
            var q := Proposed(["q"], ["a", "x"], true, 1, None, None, false, false, false);
            && WellFormed(t) && OnePerFile([p, q]) && Harmless(t, [p, q], 0) && Harmless(t, [p, q], 1)
            && Above(Key(p.destination), Key(q.destination))
  {
    var t: Tree := map[["p"] := File(STATE), ["q"] := File(STATE)];
    var p := Proposed(["p"], ["a"], true, 1, None, None, false, false, false);
    var q := Proposed(["q"], ["a", "x"], true, 1, None, None, false, false, false);
    assert Lower("p") == "p" && Lower("q") == "q" && Lower("a") == "a" && Lower("x") == "x";
    assert Key(["p"]) == ["p"] && Key(["q"]) == ["q"] && Key(["a"]) == ["a"] && Key(["a", "x"]) == ["a", "x"];
    assert ["p"][0] != ["a"][0] && ["q"][0] != ["a"][0];
    assert ["a", "x"][..1] == ["a"];
    MoverIsHarmless(t, [p, q], 0, "p", ["a"]);
    MoverIsHarmless(t, [p, q], 1, "q", ["a", "x"]);
  }

  /** `P` and `p` are one folder of the volume. */
  const FOLDER: Tree := map[["p"] := Directory, ["p", "f"] := File(STATE)]
  const FOLDER_NAMES: Names := map[["p"] := "P", ["p", "f"] := "f"]
  const RETURNS := Proposed(["P", "f"], ["p", "g"], true, 1, None, None, false, false, false)

  lemma FolderSpelling()
    ensures Key(["P"]) == ["p"] && Key(["P", "f"]) == ["p", "f"] && Key(["p", "g"]) == ["p", "g"]
    ensures Lower("P") == "p" && Lower("f") == "f" && Lower("p") == "p" && Lower("g") == "g"
    ensures Spelled(FOLDER, FOLDER_NAMES)
    ensures Spell(FOLDER_NAMES, ["P"], ["p"]) == ["P"] && Spell(FOLDER_NAMES, ["P"], ["p", "f"]) == ["P", "f"]
  {
    assert Lower("P") == "p" && Lower("f") == "f" && Lower("p") == "p" && Lower("g") == "g";
    assert Key(["P"]) == ["p"] && Key(["P", "f"]) == ["p", "f"] && Key(["p", "g"]) == ["p", "g"];
    assert Parent(["p", "f"]) == ["p"];
    assert Spell(FOLDER_NAMES, ["P"], ["p", "f"]) == ["P"] + ["f"] == ["P", "f"];
  }

  lemma ReturnsIsHarmless()
    ensures OnePerFile([RETURNS]) && Harmless(FOLDER, [RETURNS], 0)
  {
    ReturnsPasses();
    PlaceIsFree();
  }

  lemma ReturnsPasses()
    ensures !Preflight(FOLDER, 0, RETURNS).blocked
  {
    FolderSpelling();
    SourceIsLive();
    assert "p"[0] == 'p' && "g"[0] == 'g' && ["p", "f"][1][0] == 'f';
  }

  lemma SourceIsLive()
    ensures LiveState(FOLDER, RETURNS) == Some(STATE)
  {
    FolderSpelling();
    assert "P"[0] == 'P' && "f"[0] == 'f';
  }

  lemma PlaceIsFree()
    ensures MayAppear(FOLDER, ["p", "g"])
  {
    FolderSpelling();
    assert "g"[0] == 'g' && "f"[0] == 'f' && STAGING[0] == '.';
    assert ["p", "g"][1] != ["p", "f"][1];
    assert ["p", "g"][..1] == ["p"];
  }

  lemma FolderIsEmptied(destinations: seq<Path>)
    requires forall d | d in destinations :: d == ["p", "g"]
    ensures SafeTop(FOLDER, FOLDER_NAMES, {["P", "f"]}, destinations, "P")
  {
    FolderSpelling();
    OtherSpelling();
    forall q | Below(["P"], q, FOLDER) ensures CaredFor(FOLDER, FOLDER_NAMES, ["P"], {["P", "f"]}, q) {
      assert q == ["p"] || q == ["p", "f"];
    }
  }

  lemma OtherSpelling()
    ensures !AtOrUnder(["p", "g"], ["P"]) && !DrivePrefixed("P") && !Protected("P")
  {
    FolderSpelling();
    assert "P"[0] == 'P' && "p"[0] == 'p' && |"p"| == 1;
    assert ["p", "g"][..1][0] == "p";
  }

  /** Every prepared plan for this proposal empties `P` and returns into it. */
  lemma ReturnsIsPlanned(p: PreparedPlan)
    requires SameAsProposed([RETURNS], p.candidates) && TakesInOrder(p.candidates, p.order, p.plan) && |p.order| > 0
    ensures SourcesOf(p.candidates, p.order) == {["P", "f"]}
    ensures Empties(FOLDER, FOLDER_NAMES, p, "P") && ReturnsInto(p, 0, "P")
  {
    OnlySource(p.candidates, p.order);
    FolderIsEmptied(UserDestinations(p.candidates, p.order));
    OnlyTop({["P", "f"]});
    ReturnsInOtherCase(p);
  }

  lemma ReturnsInOtherCase(p: PreparedPlan)
    requires SameAsProposed([RETURNS], p.candidates) && TakesInOrder(p.candidates, p.order, p.plan) && |p.order| > 0
    ensures ReturnsInto(p, 0, "P")
  {
    FolderSpelling();
    assert "p"[0] != "P"[0] && p.candidates[p.order[0]].destination == ["p", "g"];
  }

  lemma OnlyTop(sources: set<Path>)
    requires sources == {["P", "f"]}
    ensures "P" in Tops(sources)
  {
    OtherSpelling();
    assert ["P", "f"][0] == "P";
  }

  lemma OnlySource(c: seq<Candidate>, order: seq<nat>)
    requires SameAsProposed([RETURNS], c) && |order| > 0 && forall x | 0 <= x < |order| :: order[x] < |c|
    ensures SourcesOf(c, order) == {["P", "f"]} && forall d | d in UserDestinations(c, order) :: d == ["p", "g"]
  {
    assert forall x | 0 <= x < |order| :: order[x] == 0;
    assert c[order[0]].source == ["P", "f"];
  }

  /** One harmless proposal, `P/f` to `p/g`: the walk takes `P` for emptied, its removal is
      refused, and no prepared plan completes. */
  lemma ReturnsIntoExample(p: PreparedPlan)
    ensures OnePerFile([RETURNS]) && Spelled(FOLDER, FOLDER_NAMES) && Harmless(FOLDER, [RETURNS], 0)
    ensures PreparesReturns(p) ==> !NoneUnderRemoved(p.plan) && Replay(ScheduledSteps(p.operations), FOLDER).None?
  {
    FolderSpelling();
    ReturnsIsHarmless();
    if PreparesReturns(p) {
      HarmlessIsOpen(FOLDER, [RETURNS], p.candidates, 0);
      var k :| 0 <= k < |UserMoves(p.plan)| && Carried(p.candidates[0], p.plan, k);
      ReturnsIsPlanned(p);
      UnderRemovedExactly(FOLDER, FOLDER_NAMES, p);
      CompletesExactlyWhenClear(FOLDER, p.plan);
    }
  }

  /** What `Prepare` promises for this proposal. */
  ghost predicate PreparesReturns(p: PreparedPlan) {
    && SameAsProposed([RETURNS], p.candidates) && GreatestMovable(FOLDER, [RETURNS], OpenIndexes(p.candidates))
    && CarriesOpen(p) && CleansUp(FOLDER, FOLDER_NAMES, p) && Runnable(FOLDER, p)
  }

  // ---- a swap

  const OTHER := Fingerprint(2, 1, 2, 2)
  const PAIR: Tree := map[["a"] := File(STATE), ["b"] := File(OTHER)]
  const PAIR_NAMES: Names := map[["a"] := "a", ["b"] := "b"]
  const SWAP := [Proposed(["a"], ["b"], true, 1, None, None, false, false, false),
                 Proposed(["b"], ["a"], true, 1, None, None, false, false, false)]

  /** Random names: no two draws are of one length. */
  function Draw(k: nat): (name: Name)
    ensures Lower(name) == name && |name| == k + 1 && SoundNames([name]) && name != "a" && name != "b"
  {
    var name := seq(k + 1, _ => 'x');
    assert name[0] == 'x';
    assert forall i | 0 <= i < |name| :: LowerChar(name[i]) == name[i];
    assert Lower(name) == name;
    name
  }

  lemma PairSpelling()
    ensures Key(["a"]) == ["a"] && Key(["b"]) == ["b"] && ["a"] != ["b"]
    ensures Spelled(PAIR, PAIR_NAMES) && OnePerFile(SWAP)
  {
    assert Lower("a") == "a" && Lower("b") == "b" && "a"[0] != "b"[0];
    assert Key(["a"]) == ["a"] && Key(["b"]) == ["b"];
    assert ["a"][0] != ["b"][0];
  }

  lemma DrawIsUsable(k: nat)
    ensures Usable(PAIR, "e", Draw(k), [])
  {
    var place := Key([STAGING, "e", Draw(k)]);
    StagingIsLower();
    assert STAGING[0] == '.' && "a"[0] == 'a' && "b"[0] == 'b';
    assert place[0] == STAGING;
    forall n | 1 <= n < |place| ensures place[..n] !in PAIR {
      assert place[..n][0] == STAGING && ["a"][0] == "a" && ["b"][0] == "b";
    }
  }

  lemma StagingIsOpen()
    ensures StagingOpen(PAIR, "e", Draw)
  {
    forall k: nat ensures Usable(PAIR, "e", Draw(k), []) {
      DrawIsUsable(k);
    }
    forall j: nat, k: nat | j < k ensures Lower(Draw(j)) != Lower(Draw(k)) {
      assert |Lower(Draw(j))| != |Lower(Draw(k))|;
    }
  }

  lemma SwapIsSupplied()
    ensures Supplied(PAIR, PAIR_NAMES, SWAP, "e", Draw)
  {
    PairSpelling();
    assert "e"[0] == 'e';
    forall i, k: nat | 0 <= i < |SWAP| ensures Lower(Draw(k)) !in Key(SWAP[i].destination) {
      assert Key(SWAP[i].destination) == ["a"] || Key(SWAP[i].destination) == ["b"];
    }
  }

  lemma SwapPasses(i: nat)
    requires i < 2
    ensures Passes(PAIR, SWAP, i) && Vacated(SWAP, {0, 1}, i)
  {
    PairSpelling();
    assert "a"[0] == 'a' && "b"[0] == 'b';
    var j := 1 - i;
    assert j in {0, 1} && Key(SWAP[j].source) == Key(SWAP[i].destination);
    assert Key(SWAP[j].destination) != Key(SWAP[i].destination);
  }

  lemma SwapIsMovable()
    ensures Movable(PAIR, SWAP, {0, 1}) && Welcome(PAIR, SWAP, false)
  {
    SwapPasses(0);
    SwapPasses(1);
    assert Enough(SWAP, {0, 1}, false);
  }

  /** Both are staged. */
  lemma SwapIsStaged(p: PreparedPlan) returns (x: nat, y: nat)
    requires SameAsProposed(SWAP, p.candidates) && Verdicts(PAIR, p.candidates)
    requires !p.candidates[0].blocked && !p.candidates[1].blocked && CarriesOpen(p) && PlanRuns.Planned(PAIR, p.plan)
    ensures p.plan.direct == [] && |p.plan.stages| == 2
    ensures x < |UserMoves(p.plan)| && Carried(p.candidates[0], p.plan, x)
    ensures y < |UserMoves(p.plan)| && Carried(p.candidates[1], p.plan, y)
  {
    SwapIsCycle(p.candidates);
    x :| 0 <= x < |UserMoves(p.plan)| && Carried(p.candidates[0], p.plan, x);
    y :| 0 <= y < |UserMoves(p.plan)| && Carried(p.candidates[1], p.plan, y);
    CyclesAreStaged(PAIR, p, {0, 1}, 0, x);
    CyclesAreStaged(PAIR, p, {0, 1}, 1, y);
    PairSpelling();
    TwoSources(p.plan, x, y);
  }

  lemma SwapIsCycle(c: seq<Candidate>)
    requires SameAsProposed(SWAP, c) && !c[0].blocked && !c[1].blocked
    ensures Cycle(c, {0, 1})
  {
    assert c[0].source == c[1].destination && c[1].source == c[0].destination;
    assert Occupies(c, 1, 0) && Occupies(c, 0, 1);
    assert 0 in {0, 1} && 1 in {0, 1};
    assert Follows(c, {0, 1}, 0) && Follows(c, {0, 1}, 1);
  }

  lemma SwapIsOpen(c: seq<Candidate>)
    requires SameAsProposed(SWAP, c) && GreatestMovable(PAIR, SWAP, OpenIndexes(c))
    ensures !c[0].blocked && !c[1].blocked
  {
    SwapIsMovable();
    assert 0 in {0, 1} && 1 in {0, 1};
    assert 0 in OpenIndexes(c) && 1 in OpenIndexes(c);
  }

  /** With two files there are two moves at most. */
  lemma TwoSources(plan: Plan, x: nat, y: nat)
    requires MovesPlanned(PAIR, plan) && |plan.direct| <= x < |Taking(plan)| && |plan.direct| <= y < |Taking(plan)|
    requires Taking(plan)[x].source == ["a"] && Taking(plan)[y].source == ["b"]
    ensures plan.direct == [] && |plan.stages| == 2
  {
    assert ["a"][0] != ["b"][0] && "a"[0] != "b"[0];
    var n := |Taking(plan)|;
    if |plan.direct| > 0 {
      OneOfTwo(plan, x, y, 0);
    } else if n > 2 {
      OneOfTwo(plan, x, y, 0);
      OneOfTwo(plan, x, y, 1);
      OneOfTwo(plan, x, y, 2);
    }
  }

  lemma OneOfTwo(plan: Plan, x: nat, y: nat, k: nat)
    requires MovesPlanned(PAIR, plan) && x < |Taking(plan)| && y < |Taking(plan)| && k < |Taking(plan)|
    requires Taking(plan)[x].source == ["a"] && Taking(plan)[y].source == ["b"]
    ensures k == x || k == y
  {
    assert Taking(plan)[k].source in PAIR;
    TakenOnce(plan, k, if Taking(plan)[k].source == ["a"] then x else y);
  }

  /** Two files change places: the swap is prepared, both go through staging, the run
      completes, and each file is where the other one was. */
  method SwapExample() returns (r: Option<PreparedPlan>, completed: bool, after: Tree)
    ensures r.Some? && |r.value.plan.stages| == 2 && r.value.plan.direct == []
    ensures completed && ["a"] in after && after[["a"]] == File(OTHER) && ["b"] in after && after[["b"]] == File(STATE)
  {
    PairSpelling();
    SwapIsSupplied();
    StagingIsOpen();
    SwapIsMovable();
    r := Prepare(PAIR, PAIR_NAMES, SWAP, false, "e", Draw);
    var p := r.value;
    SwapIsClear(p);
    SwapIsOpen(p.candidates);
    ghost var x, y := SwapIsStaged(p);
    var restored: Tree;
    ghost var done;
    completed, after, restored, done := RunAndRollBack(PAIR, p);
    SwapEnds(p, 0, x, after);
    SwapEnds(p, 1, y, after);
  }

  /** Where the plan puts files: the two places of the tree, and staging places. */
  lemma SwapPlaces(p: PreparedPlan, d: Path)
    requires SameAsProposed(SWAP, p.candidates) && PlanRuns.Planned(PAIR, p.plan)
    requires TakesInOrder(p.candidates, p.order, p.plan) && IsDestination(p.plan, d)
    ensures d == ["a"] || d == ["b"] || StagingPlace(PAIR, d)
  {
    PairSpelling();
    if d !in Destinations(p.plan.stages) {
      UserDestination(p.plan, d);
      var k :| 0 <= k < |UserMoves(p.plan)| && UserMoves(p.plan)[k].destination == d;
      assert p.order[k] == 0 || p.order[k] == 1;
    }
  }

  lemma SwapIsClear(p: PreparedPlan)
    requires SameAsProposed(SWAP, p.candidates) && PlanRuns.Planned(PAIR, p.plan)
    requires TakesInOrder(p.candidates, p.order, p.plan)
    ensures NoneAbove(p.plan) && NoneUnderRemoved(p.plan)
  {
    assert forall r | r in p.plan.removals :: IsDirectory(PAIR, r);
    forall d, e | IsDestination(p.plan, d) && IsDestination(p.plan, e) ensures !Above(d, e) {
      SwapPlaces(p, d);
      SwapPlaces(p, e);
      PlacesAreFlat(d, e);
    }
  }

  lemma PlacesAreFlat(d: Path, e: Path)
    requires d == ["a"] || d == ["b"] || StagingPlace(PAIR, d)
    requires e == ["a"] || e == ["b"] || StagingPlace(PAIR, e)
    ensures !Above(d, e)
  {
    assert STAGING[0] == '.' && "a"[0] == 'a' && "b"[0] == 'b';
    assert e[..1] == [e[0]];
  }

  lemma SwapEnds(p: PreparedPlan, i: nat, k: nat, after: Tree)
    requires SameAsProposed(SWAP, p.candidates) && PlanRuns.Planned(PAIR, p.plan) && Finished(PAIR, p.plan, after)
    requires i < 2 && k < |UserMoves(p.plan)| && Carried(p.candidates[i], p.plan, k)
    ensures i == 0 ==> ["b"] in after && after[["b"]] == File(STATE)
    ensures i == 1 ==> ["a"] in after && after[["a"]] == File(OTHER)
  {
    PairSpelling();
    TakingByPart(p.plan);
    assert UserMoves(p.plan)[k].expected == Taking(p.plan)[k].expected;
  }
}
