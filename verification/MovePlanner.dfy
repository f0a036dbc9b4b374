/** From reviewed proposals to an ordered set of safe moves. */
module MovePlanner {
  import opened Paths
  import opened FileTree
  import opened PlanRuns

  /** A reviewed proposal. `namesAllowed` is the verdict of the name policy's other rules
      on the destination (characters, reserved names, lengths); the recorded state is what
      the scan saw. */
  datatype Proposed = Proposed(
    source: Path, destination: Path, namesAllowed: bool,
    byteSize: nat, modifiedAt: Option<int>, digest: Option<nat>,
    stale: bool, needsReview: bool, userOverride: bool)

  datatype Candidate = Candidate(
    id: nat, source: Path, destination: Path, state: Fingerprint, blocked: bool, dependencies: set<nat>)

  /** `relative_path` and the name policy refuse a name whose second character is a colon. */
  predicate DrivePrefixed(name: Name) {
    |name| > 1 && name[1] == ':'
  }

  /** `live_source_fingerprint`: the file as it is now, unless it is gone or has drifted. */
  function LiveState(t: Tree, proposed: Proposed): (r: Option<Fingerprint>)
    ensures r.Some? ==> IsRelative(proposed.source) && !DrivePrefixed(proposed.source[0])
    ensures r.Some? ==> Key(proposed.source) in t && t[Key(proposed.source)] == File(r.value)
  {
    if !IsRelative(proposed.source) || DrivePrefixed(proposed.source[0]) || Key(proposed.source) !in t then None
    else match t[Key(proposed.source)]
      case File(state) =>
        if state.byteSize != proposed.byteSize
           || (proposed.modifiedAt.Some? && proposed.modifiedAt.value != state.modifiedAt)
           || (proposed.digest.Some? && proposed.digest.value != state.digest)
        then None else Some(state)
      case _ => None
  }

  const NO_STATE := Fingerprint(0, 0, 0, 0)

  predicate SoundNames(path: Path) {
    IsRelative(path) && forall i | 0 <= i < |path| :: !DrivePrefixed(path[i])
  }

  /** `preflight_candidate`. */
  function Preflight(t: Tree, id: nat, proposed: Proposed): (c: Candidate)
    ensures c.id == id && c.source == proposed.source && c.destination == proposed.destination
    ensures c.dependencies == {}
    ensures !c.blocked <==>
              && !proposed.stale && (proposed.needsReview ==> proposed.userOverride)
              && Key(proposed.source) != Key(proposed.destination)
              && SoundNames(proposed.destination) && proposed.namesAllowed && LiveState(t, proposed).Some?
    ensures !c.blocked ==> HasState(t, c)
  {
    var live := LiveState(t, proposed);
    var refused :=
      || proposed.stale || (proposed.needsReview && !proposed.userOverride)
      || proposed.source == proposed.destination || Key(proposed.source) == Key(proposed.destination)
      || !SoundNames(proposed.destination) || !proposed.namesAllowed || live.None?;
    Candidate(id, proposed.source, proposed.destination,
      if live.Some? then live.value else NO_STATE, refused, {})
  }

  predicate HasState(t: Tree, c: Candidate) {
    && IsRelative(c.source) && Key(c.source) in t && t[Key(c.source)] == File(c.state)
    && SoundNames(c.destination)
  }

  /** Only the verdict and the dependencies of a candidate may change during planning. */
  ghost predicate SameMoves(before: seq<Candidate>, after: seq<Candidate>) {
    |before| == |after|
    && forall i | 0 <= i < |before| ::
         && after[i] == before[i].(blocked := after[i].blocked, dependencies := after[i].dependencies)
         && (before[i].blocked ==> after[i].blocked)
  }

  // ---- duplicate destinations

  ghost predicate Collides(s: seq<Candidate>, i: nat)
    requires i < |s|
  {
    !s[i].blocked && exists j | 0 <= j < |s| && j != i :: !s[j].blocked && Key(s[j].destination) == Key(s[i].destination)
  }

  /** The open candidates among the first `n` with one destination key, in order. */
  ghost predicate IsGroup(s: seq<Candidate>, n: nat, key: Path, group: seq<nat>)
    requires n <= |s|
  {
    && (forall x | 0 <= x < |group| :: group[x] < n && !s[group[x]].blocked && Key(s[group[x]].destination) == key)
    && (forall x, y | 0 <= x < y < |group| :: group[x] < group[y])
    && (forall i | 0 <= i < n && !s[i].blocked && Key(s[i].destination) == key :: i in group)
  }

  /** Open candidates by destination key. */
  ghost predicate Grouped(s: seq<Candidate>, n: nat, groups: map<Path, seq<nat>>) {
    && n <= |s|
    && (forall k | k in groups :: IsGroup(s, n, k, groups[k]))
    && (forall i | 0 <= i < n && !s[i].blocked :: Key(s[i].destination) in groups)
  }

  predicate InLargeGroup(c: Candidate, groups: map<Path, seq<nat>>) {
    !c.blocked && Key(c.destination) in groups && |groups[Key(c.destination)]| > 1
  }

  lemma LargeGroupsCollide(s: seq<Candidate>, groups: map<Path, seq<nat>>, i: nat)
    requires Grouped(s, |s|, groups) && i < |s|
    ensures Collides(s, i) <==> InLargeGroup(s[i], groups)
  {
    var key := Key(s[i].destination);
    if !s[i].blocked {
      assert IsGroup(s, |s|, key, groups[key]);
      var x :| 0 <= x < |groups[key]| && groups[key][x] == i;
      if |groups[key]| > 1 {
        var y := if x == 0 then 1 else 0;
        assert groups[key][y] != i;
      }
      if Collides(s, i) {
        var j :| 0 <= j < |s| && j != i && !s[j].blocked && Key(s[j].destination) == key;
        var y :| 0 <= y < |groups[key]| && groups[key][y] == j;
      }
    }
  }

  method BlockAll(a: array<Candidate>, members: seq<nat>)
    requires forall x | 0 <= x < |members| :: members[x] < a.Length
    modifies a
    ensures forall i | 0 <= i < a.Length :: a[i] == old(a[i]).(blocked := old(a[i]).blocked || i in members)
  {
    for x := 0 to |members|
      invariant forall i | 0 <= i < a.Length :: a[i] == old(a[i]).(blocked := old(a[i]).blocked || i in members[..x])
    {
      a[members[x]] := a[members[x]].(blocked := true);
      assert members[..x + 1] == members[..x] + [members[x]];
    }
    assert members[..|members|] == members;
  }

  method GroupByDestination(s: seq<Candidate>) returns (groups: map<Path, seq<nat>>)
    ensures Grouped(s, |s|, groups)
  {
    groups := map[];
    for n := 0 to |s|
      invariant Grouped(s, n, groups)
    {
      groups := GroupOne(s, n, groups);
    }
  }

  /** One turn of the loop: an open candidate joins the group of its destination. */
  method GroupOne(s: seq<Candidate>, n: nat, groups: map<Path, seq<nat>>) returns (more: map<Path, seq<nat>>)
    requires n < |s| && Grouped(s, n, groups)
    ensures Grouped(s, n + 1, more)
  {
    more := groups;
    if s[n].blocked {
      GroupedSkip(s, n, groups);
    } else {
      var key := Key(s[n].destination);
      more := groups[key := GroupSoFar(groups, key) + [n]];
      GroupedSoFar(s, n, groups, key);
      GroupedNext(s, n, groups, key, GroupSoFar(groups, key));
    }
  }

  function GroupSoFar(groups: map<Path, seq<nat>>, key: Path): seq<nat> {
    if key in groups then groups[key] else []
  }

  /** A known key has its group, a new one had no candidate yet. */
  lemma GroupedSoFar(s: seq<Candidate>, n: nat, groups: map<Path, seq<nat>>, key: Path)
    requires Grouped(s, n, groups)
    ensures IsGroup(s, n, key, GroupSoFar(groups, key))
  {
    if key in groups {
      assert IsGroup(s, n, key, groups[key]);
    } else {
      assert forall i | 0 <= i < n && !s[i].blocked :: Key(s[i].destination) != key;
    }
  }

  lemma GroupedSkip(s: seq<Candidate>, n: nat, groups: map<Path, seq<nat>>)
    requires Grouped(s, n, groups) && n < |s| && s[n].blocked
    ensures Grouped(s, n + 1, groups)
  {
    forall k | k in groups ensures IsGroup(s, n + 1, k, groups[k]) {
      assert IsGroup(s, n, k, groups[k]);
    }
  }

  lemma GroupedNext(s: seq<Candidate>, n: nat, groups: map<Path, seq<nat>>, key: Path, group: seq<nat>)
    requires n < |s| && !s[n].blocked && Key(s[n].destination) == key && IsGroup(s, n, key, group)
    requires Grouped(s, n, groups)
    ensures Grouped(s, n + 1, groups[key := group + [n]])
  {
    GroupNext(s, n, key, group);
    OtherGroupsNext(s, n, groups, key);
  }

  lemma OtherGroupsNext(s: seq<Candidate>, n: nat, groups: map<Path, seq<nat>>, key: Path)
    requires Grouped(s, n, groups) && n < |s| && Key(s[n].destination) == key
    ensures forall k | k in groups && k != key :: IsGroup(s, n + 1, k, groups[k])
  {
    forall k | k in groups && k != key ensures IsGroup(s, n + 1, k, groups[k]) {
      assert IsGroup(s, n, k, groups[k]);
    }
  }

  lemma GroupNext(s: seq<Candidate>, n: nat, key: Path, group: seq<nat>)
    requires n < |s| && !s[n].blocked && Key(s[n].destination) == key && IsGroup(s, n, key, group)
    ensures IsGroup(s, n + 1, key, group + [n])
  {
    var longer := group + [n];
    assert longer[|group|] == n;
    forall i | 0 <= i < n && !s[i].blocked && Key(s[i].destination) == key ensures i in longer {
      var x :| 0 <= x < |group| && group[x] == i;
      assert longer[x] == i;
    }
  }

  /** `detect_plan_collisions`: group the open candidates by destination, then block every
      member of a group of two or more. */
  method DetectPlanCollisions(a: array<Candidate>)
    modifies a
    ensures forall i | 0 <= i < a.Length ::
              a[i] == old(a[i]).(blocked := old(a[i]).blocked || Collides(old(a[..]), i))
  {
    ghost var s := a[..];
    var groups := GroupByDestination(a[..]);
    var keys := groups.Keys;
    while keys != {}
      invariant keys <= groups.Keys
      invariant forall i | 0 <= i < a.Length ::
                  a[i] == s[i].(blocked := s[i].blocked || (Key(s[i].destination) !in keys && InLargeGroup(s[i], groups)))
      decreases |keys|
    {
      var key :| key in keys;
      if |groups[key]| > 1 {
        BlockAll(a, groups[key]);
      }
      keys := keys - {key};
    }
    forall i | 0 <= i < a.Length ensures Collides(s, i) <==> InLargeGroup(s[i], groups) {
      LargeGroupsCollide(s, groups, i);
    }
  }

  // ---- occupied destinations

  /** Every existing ancestor of `d` is a plain directory. */
  predicate AncestorsOpen(t: Tree, d: Path) {
    forall n | 1 <= n < |d| && d[..n] in t :: t[d[..n]].Directory?
  }

  /** `resolve_absent_destination` for a user destination; the staging folder is protected
      under its own spelling only. */
  predicate MayAppear(t: Tree, destination: Path) {
    destination != [] && destination[0] != STAGING && Key(destination) !in t && AncestorsOpen(t, Key(destination))
  }

  /** The other candidate whose file now occupies the destination of `i`. */
  ghost predicate Occupies(s: seq<Candidate>, j: nat, i: nat)
    requires i < |s| && j < |s|
  {
    j != i && Key(s[j].source) == Key(s[i].destination)
  }

  /** The last of the first `n` candidates that is open and whose file lies at `d`. */
  function Vacating(s: seq<Candidate>, n: nat, d: Path): (j: Option<nat>)
    requires n <= |s|
    ensures j.Some? ==> j.value < n && !s[j.value].blocked && Key(s[j.value].source) == d
    ensures j.None? ==> forall k | 0 <= k < n && !s[k].blocked :: Key(s[k].source) != d
  {
    if n == 0 then None
    else if !s[n - 1].blocked && Key(s[n - 1].source) == d then Some(n - 1)
    else Vacating(s, n - 1, d)
  }

  /** What happens to candidate `i`: a free destination is left alone unless it may not appear;
      an occupied one waits for the candidate that vacates it, and blocks when there is none or
      that one is blocked by then. */
  ghost predicate Resolved(t: Tree, before: seq<Candidate>, after: seq<Candidate>, i: nat)
    requires i < |before| == |after|
  {
    var d := Key(before[i].destination);
    var j := Vacating(before, |before|, d);
    if before[i].blocked then after[i] == before[i]
    else if d !in t then after[i] == before[i].(blocked := !MayAppear(t, before[i].destination))
    else if j.None? || j.value == i || (j.value < i && after[j.value].blocked) then after[i] == before[i].(blocked := true)
    else after[i] == before[i].(dependencies := before[i].dependencies + {before[j.value].id})
  }

  /** `resolve_destination_dependencies`. */
  method ResolveDestinationDependencies(t: Tree, a: array<Candidate>)
    modifies a
    ensures SameMoves(old(a[..]), a[..])
    ensures forall i | 0 <= i < a.Length :: Resolved(t, old(a[..]), a[..], i)
  {
    ghost var s := a[..];
    var sources := OpenSources(a);
    for i := 0 to a.Length
      invariant SameMoves(s, a[..])
      invariant forall k | 0 <= k < i :: Resolved(t, s, a[..], k)
      invariant forall k | i <= k < a.Length :: a[k] == s[k]
    {
      ghost var now := a[..];
      a[i] := ResolveOne(t, a, i, sources);
      ResolvedStays(t, s, now, a[..], i);
    }
  }

  /** The map from source to index; later candidates replace earlier ones. */
  method OpenSources(a: array<Candidate>) returns (sources: map<Path, nat>)
    ensures forall k :: Vacating(a[..], a.Length, k) == if k in sources then Some(sources[k]) else None
  {
    sources := map[];
    for n := 0 to a.Length
      invariant forall k :: Vacating(a[..], n, k) == if k in sources then Some(sources[k]) else None
    {
      if !a[n].blocked {
        sources := sources[Key(a[n].source) := n];
      }
    }
  }

  /** One turn of the loop. */
  method ResolveOne(t: Tree, a: array<Candidate>, i: nat, sources: map<Path, nat>) returns (c: Candidate)
    requires i < a.Length && forall k | k in sources :: sources[k] < a.Length
    ensures var d := Key(a[i].destination);
            c == if a[i].blocked then a[i]
                 else if d !in t then a[i].(blocked := !MayAppear(t, a[i].destination))
                 else if d !in sources || sources[d] == i || a[sources[d]].blocked then a[i].(blocked := true)
                 else a[i].(dependencies := a[i].dependencies + {a[sources[d]].id})
  {
    c := a[i];
    if c.blocked {
      return;
    }
    var d := Key(c.destination);
    if d in t {
      if d in sources && sources[d] != i && !a[sources[d]].blocked {
        c := c.(dependencies := c.dependencies + {a[sources[d]].id});
      } else {
        c := c.(blocked := true);
      }
    } else if !MayAppear(t, c.destination) {
      c := c.(blocked := true);
    }
  }

  /** The verdicts on earlier candidates do not look at later ones. */
  lemma ResolvedStays(t: Tree, s: seq<Candidate>, now: seq<Candidate>, next: seq<Candidate>, i: nat)
    requires |s| == |now| == |next| && i < |s|
    requires forall k | 0 <= k < i :: Resolved(t, s, now, k)
    requires forall k | 0 <= k < |s| && k != i :: next[k] == now[k]
    ensures forall k | 0 <= k < i :: Resolved(t, s, next, k)
  {
    forall k | 0 <= k < i ensures Resolved(t, s, next, k) {
      assert Resolved(t, s, now, k);
    }
  }

  // ---- blocks spread along dependencies

  ghost predicate WaitsForBlocked(s: seq<Candidate>, i: nat)
    requires i < |s|
  {
    exists j | 0 <= j < |s| :: s[j].blocked && s[j].id in s[i].dependencies
  }

  /** A set of verdicts that contains the given ones and everything that waits for it. */
  ghost predicate ClosedVerdicts(s: seq<Candidate>, verdicts: set<nat>) {
    && (forall i | 0 <= i < |s| && s[i].blocked :: i in verdicts)
    && (forall i, j | 0 <= i < |s| && j in verdicts && j < |s| && s[j].id in s[i].dependencies :: i in verdicts)
  }

  function BlockedIds(s: seq<Candidate>): set<nat> {
    set i | 0 <= i < |s| && s[i].blocked :: s[i].id
  }

  /** What every round of `propagate_dependency_blocks` keeps. */
  ghost predicate Spreading(s: seq<Candidate>, now: seq<Candidate>) {
    && SameMoves(s, now)
    && (forall i | 0 <= i < |s| :: now[i].dependencies == s[i].dependencies)
    && (forall verdicts | ClosedVerdicts(s, verdicts) :: Within(now, verdicts))
  }

  ghost predicate Within(s: seq<Candidate>, verdicts: set<nat>) {
    forall i | 0 <= i < |s| && s[i].blocked :: i in verdicts
  }

  ghost predicate NoneWaits(s: seq<Candidate>) {
    forall i | 0 <= i < |s| && !s[i].blocked :: !WaitsForBlocked(s, i)
  }

  /** Blocking one more candidate that waits for a blocked one stays within every closed
      set of verdicts. */
  lemma SpreadOne(s: seq<Candidate>, now: seq<Candidate>, i: nat, j: nat)
    requires Spreading(s, now) && i < |s| && j < |s|
    requires now[j].blocked && now[j].id in now[i].dependencies
    ensures Spreading(s, now[i := now[i].(blocked := true)])
  {
    var next := now[i := now[i].(blocked := true)];
    forall verdicts | ClosedVerdicts(s, verdicts) ensures Within(next, verdicts) {
      assert Within(now, verdicts);
      assert j in verdicts && s[j].id in s[i].dependencies;
    }
  }

  /** One round of the loop. */
  method BlockRound(a: array<Candidate>, blockedIds: set<nat>, ghost s: seq<Candidate>) returns (changed: bool)
    requires Spreading(s, a[..]) && blockedIds == BlockedIds(a[..])
    modifies a
    ensures Spreading(s, a[..]) && SameMoves(old(a[..]), a[..])
    ensures changed ==> exists k | 0 <= k < a.Length :: a[..][k].blocked && !old(a[..])[k].blocked
    ensures !changed ==> a[..] == old(a[..]) && NoneWaits(a[..])
  {
    ghost var round := a[..];
    changed := false;
    for i := 0 to a.Length
      invariant Spreading(s, a[..]) && SameMoves(round, a[..])
      invariant changed ==> exists k | 0 <= k < i :: a[..][k].blocked && !round[k].blocked
      invariant !changed ==> a[..] == round
      invariant !changed ==> forall k | 0 <= k < i && !round[k].blocked :: round[k].dependencies * blockedIds == {}
    {
      if !a[i].blocked && a[i].dependencies * blockedIds != {} {
        ghost var id :| id in a[i].dependencies * blockedIds;
        ghost var j :| 0 <= j < |round| && round[j].blocked && round[j].id == id;
        SpreadOne(s, a[..], i, j);
        ghost var before := a[..];
        a[i] := a[i].(blocked := true);
        assert a[..] == before[i := before[i].(blocked := true)];
        changed := true;
      }
    }
    if !changed {
      forall i, j | 0 <= i < |round| && 0 <= j < |round| && !round[i].blocked && round[j].blocked
        ensures round[j].id !in round[i].dependencies
      {
        assert round[j].id in blockedIds && round[i].dependencies * blockedIds == {};
        assert round[j].id !in round[i].dependencies * blockedIds;
      }
    }
  }

  /** `propagate_dependency_blocks`: rounds until nothing changes. The result is the least
      closed set of verdicts. */
  method PropagateDependencyBlocks(a: array<Candidate>)
    modifies a
    ensures Spreading(old(a[..]), a[..]) && NoneWaits(a[..])
  {
    ghost var s := a[..];
    var changed := true;
    while changed
      invariant Spreading(s, a[..])
      invariant !changed ==> NoneWaits(a[..])
      decreases Open(a[..]), changed
    {
      ghost var round := a[..];
      changed := BlockRound(a, BlockedIds(a[..]), s);
      FewerOpen(round, a[..]);
    }
  }

  ghost function Open(s: seq<Candidate>): nat {
    if s == [] then 0 else (if s[0].blocked then 0 else 1) + Open(s[1..])
  }

  lemma {:induction false} FewerOpen(before: seq<Candidate>, after: seq<Candidate>)
    requires SameMoves(before, after)
    ensures Open(after) <= Open(before)
    ensures (exists k | 0 <= k < |before| :: after[k].blocked && !before[k].blocked) ==> Open(after) < Open(before)
  {
    if before != [] {
      FewerOpen(before[1..], after[1..]);
      assert after[0] == before[0].(blocked := after[0].blocked, dependencies := after[0].dependencies);
      if k :| 0 <= k < |before| && after[k].blocked && !before[k].blocked {
        if k > 0 {
          assert after[1..][k - 1].blocked && !before[1..][k - 1].blocked;
        }
      }
    }
  }

  // ---- order

  predicate ReadyAmong(s: seq<Candidate>, i: nat, remainingIds: set<nat>)
    requires i < |s|
  {
    s[i].dependencies !! remainingIds
  }

  /** The order key of `min_by_key`: source text, then id. */
  predicate NotAfter(a: Candidate, b: Candidate) {
    if Join(Key(a.source)) == Join(Key(b.source)) then a.id <= b.id
    else TextAtMost(Join(Key(a.source)), Join(Key(b.source)))
  }

  /** The least member of a nonempty set of candidates. */
  method Least(s: seq<Candidate>, choices: set<nat>) returns (least: nat)
    requires choices != {} && forall i | i in choices :: i < |s|
    ensures least in choices && forall i | i in choices :: NotAfter(s[least], s[i])
  {
    least :| least in choices;
    var rest := choices - {least};
    while rest != {}
      invariant rest <= choices && least in choices
      invariant forall i | i in choices && i !in rest :: NotAfter(s[least], s[i])
      decreases |rest|
    {
      var i :| i in rest;
      rest := rest - {i};
      if !NotAfter(s[least], s[i]) {
        SwitchLeast(s, choices - rest - {i}, least, i);
        least := i;
      }
    }
  }

  lemma SwitchLeast(s: seq<Candidate>, seen: set<nat>, least: nat, i: nat)
    requires least < |s| && i < |s| && forall k | k in seen :: k < |s|
    requires forall k | k in seen :: NotAfter(s[least], s[k])
    requires !NotAfter(s[least], s[i])
    ensures forall k | k in seen :: NotAfter(s[i], s[k])
  {
    var x, y := Join(Key(s[i].source)), Join(Key(s[least].source));
    TextOrderIsTotal(x, y);
    forall k | k in seen ensures NotAfter(s[i], s[k]) {
      var z := Join(Key(s[k].source));
      assert NotAfter(s[least], s[k]);
      if x != y && y != z {
        TextOrderIsTransitive(x, y, z);
        if x == z {
          TextOrderIsAntisymmetric(x, y);
        }
      }
    }
  }

  function IdsOf(s: seq<Candidate>, indexes: set<nat>): set<nat>
    requires forall i | i in indexes :: i < |s|
  {
    set i | i in indexes :: s[i].id
  }

  function Members(list: seq<nat>): set<nat> {
    set y | 0 <= y < |list| :: list[y]
  }

  lemma MembersOfLonger(list: seq<nat>, next: nat)
    ensures Members(list + [next]) == Members(list) + {next}
  {
    var longer := list + [next];
    assert longer[|list|] == next;
    forall i | i in Members(list) ensures i in Members(longer) {
      var y :| 0 <= y < |list| && list[y] == i;
      assert longer[y] == i;
    }
  }

  ghost predicate NoRepeats(list: seq<nat>) {
    forall x, y | 0 <= x < y < |list| :: list[x] != list[y]
  }

  /** A set taken apart into a list, without repeats, and the rest. */
  ghost predicate Splits(whole: set<nat>, list: seq<nat>, rest: set<nat>) {
    NoRepeats(list) && Members(list) !! rest && Members(list) + rest == whole
  }

  lemma SplitsNext(whole: set<nat>, list: seq<nat>, rest: set<nat>, next: nat)
    requires Splits(whole, list, rest) && next in rest
    ensures Splits(whole, list + [next], rest - {next})
  {
    MembersOfLonger(list, next);
    assert forall x | 0 <= x < |list| :: list[x] in Members(list);
  }

  /** In order, and before everything that is still to come. */
  ghost predicate Ascending(s: seq<Candidate>, list: seq<nat>, later: set<nat>)
    requires (forall x | 0 <= x < |list| :: list[x] < |s|) && forall i | i in later :: i < |s|
  {
    && (forall x, y | 0 <= x < y < |list| :: NotAfter(s[list[x]], s[list[y]]))
    && (forall x, i | 0 <= x < |list| && i in later :: NotAfter(s[list[x]], s[i]))
  }

  lemma AscendingAppend(s: seq<Candidate>, list: seq<nat>, later: set<nat>, next: nat)
    requires (forall x | 0 <= x < |list| :: list[x] < |s|) && forall i | i in later :: i < |s|
    requires Ascending(s, list, later) && next in later && forall i | i in later :: NotAfter(s[next], s[i])
    ensures Ascending(s, list + [next], later - {next})
  {
  }

  /** `sort_by_key` on the order key. */
  method SortBySource(s: seq<Candidate>, indexes: set<nat>) returns (list: seq<nat>)
    requires forall i | i in indexes :: i < |s|
    ensures Splits(indexes, list, {})
    ensures forall x | 0 <= x < |list| :: list[x] < |s|
    ensures Ascending(s, list, {})
  {
    list := [];
    var remaining := indexes;
    while remaining != {}
      invariant Splits(indexes, list, remaining)
      invariant forall x | 0 <= x < |list| :: list[x] < |s|
      invariant Ascending(s, list, remaining)
      decreases remaining
    {
      var next := Least(s, remaining);
      AscendingAppend(s, list, remaining, next);
      SplitsNext(indexes, list, remaining, next);
      remaining, list := remaining - {next}, list + [next];
    }
  }

  /** No listed candidate waits for one that is open and not listed before it. */
  ghost predicate Topological(s: seq<Candidate>, ordered: seq<nat>, open: set<nat>)
    requires forall i | i in open :: i < |s|
  {
    && Members(ordered) <= open
    && forall x | 0 <= x < |ordered| :: WaitsForNone(s, ordered[x], open - Members(ordered[..x]))
  }

  ghost predicate WaitsForNone(s: seq<Candidate>, i: nat, others: set<nat>)
    requires forall j | j in others :: j < |s|
  {
    i < |s| && s[i].dependencies !! IdsOf(s, others)
  }

  lemma TakeNext(s: seq<Candidate>, ordered: seq<nat>, open: set<nat>, next: nat)
    requires (forall i | i in open :: i < |s|) && Topological(s, ordered, open) && next in open
    requires WaitsForNone(s, next, open - Members(ordered))
    ensures Topological(s, ordered + [next], open)
  {
    MembersOfLonger(ordered, next);
    var longer := ordered + [next];
    forall x | 0 <= x < |longer| ensures WaitsForNone(s, longer[x], open - Members(longer[..x])) {
      assert longer[..x] == if x < |ordered| then ordered[..x] else ordered;
    }
  }

  function OpenIndexes(s: seq<Candidate>): set<nat> {
    set i | 0 <= i < |s| && !s[i].blocked
  }

  /** Each listed candidate waits for another listed one. */
  ghost predicate Stuck(s: seq<Candidate>, indexes: set<nat>)
    requires forall i | i in indexes :: i < |s|
  {
    forall i | i in indexes :: exists j | j in indexes :: s[j].id in s[i].dependencies
  }

  /** The candidates that wait for nothing that remains. */
  function Ready(s: seq<Candidate>, remaining: set<nat>): (ready: set<nat>)
    requires forall i | i in remaining :: i < |s|
    ensures ready <= remaining && forall i | i in ready :: WaitsForNone(s, i, remaining)
    ensures ready == {} ==> Stuck(s, remaining)
  {
    var remainingIds := IdsOf(s, remaining);
    var ready := set i | i in remaining && ReadyAmong(s, i, remainingIds);
    assert ready == {} ==> Stuck(s, remaining) by {
      forall i | i in remaining && i !in ready ensures exists j | j in remaining :: s[j].id in s[i].dependencies {
        var id :| id in s[i].dependencies && id in remainingIds;
      }
    }
    ready
  }

  /** `dependency_order`: repeatedly take the least candidate that waits for nothing that
      remains. What cannot be taken waits for something that cannot be taken either. */
  method DependencyOrder(s: seq<Candidate>) returns (ordered: seq<nat>, cyclic: seq<nat>)
    ensures NoRepeats(cyclic) && Splits(OpenIndexes(s), ordered, Members(cyclic))
    ensures Topological(s, ordered, OpenIndexes(s)) && Stuck(s, Members(cyclic))
    ensures (forall x | 0 <= x < |cyclic| :: cyclic[x] < |s|) && Ascending(s, cyclic, {})
  {
    var remaining := OpenIndexes(s);
    ordered := [];
    var ready := Ready(s, remaining);
    while ready != {}
      invariant Splits(OpenIndexes(s), ordered, remaining)
      invariant Topological(s, ordered, OpenIndexes(s))
      invariant ready == Ready(s, remaining)
      decreases remaining
    {
      var next := Least(s, ready);
      assert OpenIndexes(s) - Members(ordered) == remaining;
      TakeNext(s, ordered, OpenIndexes(s), next);
      SplitsNext(OpenIndexes(s), ordered, remaining, next);
      remaining, ordered := remaining - {next}, ordered + [next];
      ready := Ready(s, remaining);
    }
    cyclic := SortBySource(s, remaining);
  }
}
