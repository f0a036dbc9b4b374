/** The identity run: which pairs of occurrences are assessed, how often, and when it ends. */
module IdentityRun {
  import opened Paths

  const FILE_PAGE := 32
  const BLOCKED_LIMIT := 64
  const MAX_COUNT := 0xFFFF_FFFF_FFFF_FFFF

  /** A name found in a file. `signals` are the identifiers that may block two occurrences. */
  datatype Occurrence = Occurrence(
    id: string, file: nat, kind: string, value: string, core: string, signals: set<(string, string)>)

  datatype Decision = Unknown | KeepSeparate | Review | AutoLink

  /** What `store_identity_candidate` reports. */
  datatype Stored = Stored(created: bool, autoLinked: bool)

  /** Everything the run does not decide itself. `cancelled` and `faulty` answer the n-th
      question; `listed` is the order in which the database lists occurrences. */
  datatype World = World(
    files: seq<nat>, current: nat -> seq<Occurrence>, listed: set<Occurrence> -> seq<Occurrence>,
    decide: (Occurrence, Occurrence) -> Decision, stored: nat -> Stored, faulty: nat -> bool, cancelled: nat -> bool)

  ghost predicate Lists(listed: seq<Occurrence>, occurrences: set<Occurrence>) {
    |listed| == |occurrences| && forall o :: o in listed <==> o in occurrences
  }

  /** A cancellation is never withdrawn, lists are complete, and occurrences know their file. */
  ghost predicate Sane(world: World) {
    && (forall i, j | 0 <= i <= j && world.cancelled(i) :: world.cancelled(j))
    && (forall s :: Lists(world.listed(s), s))
    && (forall f, o | o in world.current(f) :: o.file == f)
  }

  lemma ListedIsComplete(world: World, occurrences: set<Occurrence>)
    requires Sane(world)
    ensures Lists(world.listed(occurrences), occurrences)
  {
  }

  lemma CancelledStays(world: World, i: nat, j: nat)
    requires Sane(world) && i <= j && world.cancelled(i)
    ensures world.cancelled(j)
  {
  }

  // ---- pairs

  type Pair = (string, string)

  /** `ordered_occurrence_pair`. */
  function OrderedPair(left: string, right: string): Pair {
    if TextAtMost(left, right) then (left, right) else (right, left)
  }

  /** The key of a pair forgets exactly the order of its members. */
  lemma OrderedPairIsUnordered(a: string, b: string, c: string, d: string)
    ensures OrderedPair(a, b) == OrderedPair(c, d) <==> (a == c && b == d) || (a == d && b == c)
  {
    TextOrderIsTotal(a, b);
    TextOrderIsTotal(c, d);
    if TextAtMost(a, b) && TextAtMost(b, a) {
      TextOrderIsAntisymmetric(a, b);
    }
    if TextAtMost(c, d) && TextAtMost(d, c) {
      TextOrderIsAntisymmetric(c, d);
    }
  }

  function PairOf(left: Occurrence, right: Occurrence): Pair {
    OrderedPair(left.id, right.id)
  }

  /** Two occurrences that are worth comparing. */
  predicate Blocked(left: Occurrence, right: Occurrence) {
    && right.kind == left.kind && right.id != left.id && right.file != left.file
    && (right.value == left.value || right.core == left.core || right.signals * left.signals != {})
  }

  lemma BlockedIsSymmetric(left: Occurrence, right: Occurrence)
    ensures Blocked(left, right) == Blocked(right, left) && PairOf(left, right) == PairOf(right, left)
  {
    assert right.signals * left.signals == left.signals * right.signals;
    OrderedPairIsUnordered(left.id, right.id, right.id, left.id);
  }

  function Blocking(active: set<Occurrence>, left: Occurrence): set<Occurrence> {
    set r | r in active && Blocked(left, r)
  }

  ghost function PairsWith(active: set<Occurrence>, left: Occurrence): set<Pair> {
    set r | r in Blocking(active, left) :: PairOf(left, r)
  }

  ghost function PairsOf(active: set<Occurrence>, occurrences: seq<Occurrence>): set<Pair> {
    set l, p | l in occurrences && p in PairsWith(active, l) :: p
  }

  // ---- counting

  /** `saturating_add(1)`. */
  function Next(n: nat): nat {
    if n < MAX_COUNT then n + 1 else n
  }

  /** `log` has every pair of `assessed` once, with its members in order. */
  ghost predicate AssessedOnce(log: seq<Pair>, assessed: set<Pair>) {
    if log == [] then assessed == {}
    else
      var last := log[|log| - 1];
      last in assessed && TextAtMost(last.0, last.1) && AssessedOnce(log[..|log| - 1], assessed - {last})
  }

  lemma {:induction false} AssessedOnceMeans(log: seq<Pair>, assessed: set<Pair>)
    requires AssessedOnce(log, assessed)
    ensures |log| == |assessed| && forall p :: p in log <==> p in assessed
    ensures forall i, j | 0 <= i < j < |log| :: log[i] != log[j] && log[i] != (log[j].1, log[j].0)
  {
    if log != [] {
      var n := |log| - 1;
      AssessedOnceMeans(log[..n], assessed - {log[n]});
      forall i | 0 <= i < n ensures log[i] != log[n] {
        assert log[..n][i] in assessed - {log[n]};
      }
      LastIsNew(log, assessed);
      assert log == log[..n] + [log[n]];
      assert forall i, j | 0 <= i < j < n :: log[i] == log[..n][i] && log[j] == log[..n][j];
    }
  }

  lemma LastIsNew(log: seq<Pair>, assessed: set<Pair>)
    requires log != [] && AssessedOnce(log, assessed)
    requires forall i | 0 <= i < |log| - 1 :: log[i] != log[|log| - 1]
    ensures var last := log[|log| - 1];
            forall i | 0 <= i < |log| - 1 :: log[i] != last && log[i] != (last.1, last.0)
  {
    var front, last := log[..|log| - 1], log[|log| - 1];
    InOrder(front, assessed - {last});
    forall i | 0 <= i < |front| ensures log[i] != last && log[i] != (last.1, last.0) {
      assert log[i] == front[i] && front[i] in front;
      if log[i] == (last.1, last.0) {
        TextOrderIsAntisymmetric(last.0, last.1);
      }
    }
  }

  lemma {:induction false} InOrder(log: seq<Pair>, assessed: set<Pair>)
    requires AssessedOnce(log, assessed)
    ensures forall p | p in log :: TextAtMost(p.0, p.1)
  {
    if log != [] {
      InOrder(log[..|log| - 1], assessed - {log[|log| - 1]});
    }
  }

  ghost predicate Counts(assessed: set<Pair>, comparisons: nat, created: nat, linked: nat) {
    && comparisons == (if |assessed| < MAX_COUNT then |assessed| else MAX_COUNT)
    && created <= comparisons && linked <= comparisons
  }

  lemma AssessedNext(log: seq<Pair>, assessed: set<Pair>, left: Occurrence, right: Occurrence)
    requires AssessedOnce(log, assessed) && PairOf(left, right) !in assessed
    ensures AssessedOnce(log + [PairOf(left, right)], assessed + {PairOf(left, right)})
  {
    TextOrderIsTotal(left.id, right.id);
    assert (log + [PairOf(left, right)])[..|log|] == log;
    assert assessed + {PairOf(left, right)} - {PairOf(left, right)} == assessed;
  }

  // ---- what synchronisation leaves active

  /** `synchronize_identity_occurrences`: the occurrences of a file become those of its analysis. */
  function Synchronized(active: set<Occurrence>, file: nat, current: seq<Occurrence>): set<Occurrence> {
    (set o | o in active && o.file != file) + (set o | o in current)
  }

  /** The active occurrences after the files of `done`, in whatever order. */
  ghost function ActiveAfter(world: World, initial: set<Occurrence>, done: set<nat>): set<Occurrence> {
    (set o | o in initial && o.file !in done) + (set f, o | f in done && o in world.current(f) :: o)
  }

  lemma SynchronizedNext(world: World, initial: set<Occurrence>, done: set<nat>, file: nat)
    requires Sane(world)
    ensures Synchronized(ActiveAfter(world, initial, done), file, world.current(file)) == ActiveAfter(world, initial, done + {file})
  {
  }

  /** Everything that may be seen by a lookup. */
  ghost function Universe(world: World, initial: set<Occurrence>): set<Occurrence> {
    initial + (set f, o | f in world.files && o in world.current(f) :: o)
  }

  lemma ActiveIsInUniverse(world: World, initial: set<Occurrence>, done: set<nat>)
    requires forall f | f in done :: f in world.files
    ensures ActiveAfter(world, initial, done) <= Universe(world, initial)
  {
  }

  /** No lookup meets its limit. */
  ghost predicate Uncrowded(universe: set<Occurrence>) {
    forall l | l in universe :: |Blocking(universe, l)| <= BLOCKED_LIMIT
  }

  lemma UncrowdedWithin(universe: set<Occurrence>, active: set<Occurrence>, l: Occurrence)
    requires Uncrowded(universe) && active <= universe && l in universe
    ensures |Blocking(active, l)| <= BLOCKED_LIMIT
  {
    SubsetIsNoLarger(Blocking(active, l), Blocking(universe, l));
  }

  lemma {:induction false} SubsetIsNoLarger<T>(a: set<T>, b: set<T>)
    requires a <= b
    ensures |a| <= |b|
  {
    if a != {} {
      var x :| x in a;
      SubsetIsNoLarger(a - {x}, b - {x});
    }
  }

  // ---- coverage

  /** Every pair of blocked active occurrences with one in a file of `done` was assessed. */
  ghost predicate Covered(assessed: set<Pair>, active: set<Occurrence>, done: set<nat>) {
    forall l, r | l in active && l.file in done && r in Blocking(active, l) :: PairOf(l, r) in assessed
  }

  /** Every assessed pair is of two occurrences worth comparing, one of them in a file of the run. */
  ghost predicate Grounded(assessed: set<Pair>, universe: set<Occurrence>, files: seq<nat>) {
    forall p | p in assessed :: exists l, r :: l in universe && l.file in files && r in Blocking(universe, l) && p == PairOf(l, r)
  }

  lemma CoveredNext(world: World, initial: set<Occurrence>, done: set<nat>, file: nat, before: set<Pair>, assessed: set<Pair>)
    requires Sane(world) && before <= assessed
    requires Covered(before, ActiveAfter(world, initial, done), done)
    requires PairsOf(ActiveAfter(world, initial, done + {file}), world.current(file)) <= assessed
    ensures Covered(assessed, ActiveAfter(world, initial, done + {file}), done + {file})
  {
    var was, active := ActiveAfter(world, initial, done), ActiveAfter(world, initial, done + {file});
    forall l, r | l in active && l.file in done + {file} && r in Blocking(active, l) ensures PairOf(l, r) in assessed {
      BlockedIsSymmetric(l, r);
      if l.file == file {
        assert l in world.current(file) && PairOf(l, r) in PairsWith(active, l);
      } else if r.file == file {
        assert r in world.current(file) && l in Blocking(active, r) && PairOf(r, l) in PairsWith(active, r);
      } else {
        assert l in was && r in was && r in Blocking(was, l);
      }
    }
  }

  lemma GroundedNext(
      universe: set<Occurrence>, files: seq<nat>, active: set<Occurrence>, occurrences: seq<Occurrence>, file: nat,
      before: set<Pair>, assessed: set<Pair>)
    requires Grounded(before, universe, files) && assessed <= before + PairsOf(active, occurrences)
    requires file in files && active <= universe && forall o | o in occurrences :: o.file == file && o in universe
    ensures Grounded(assessed, universe, files)
  {
    forall p | p in assessed && p !in before
      ensures exists l, r :: l in universe && l.file in files && r in Blocking(universe, l) && p == PairOf(l, r)
    {
      var l :| l in occurrences && p in PairsWith(active, l);
      var r :| r in Blocking(active, l) && p == PairOf(l, r);
      assert l in universe && r in Blocking(universe, l);
    }
  }

  // ---- the run

  function Unresolved(files: seq<nat>, resolved: set<nat>): (left: seq<nat>)
    ensures forall f :: f in left <==> f in files && f !in resolved
  {
    if files == [] then []
    else if files[0] in resolved then Unresolved(files[1..], resolved)
    else [files[0]] + Unresolved(files[1..], resolved)
  }

  function First<T>(s: seq<T>, limit: nat): seq<T> {
    if |s| <= limit then s else s[..limit]
  }

  ghost function Pending(files: seq<nat>, resolved: set<nat>): set<nat> {
    set f | f in files && f !in resolved
  }

  datatype RunStatus = Completed | Cancelled | Failed

  class Run {
    const world: World
    var active: set<Occurrence>
    var resolved: set<nat>
    var assessed: set<Pair>
    var comparisons: nat
    var candidatesCreated: nat
    var autoLinksCreated: nat
    var polls: nat
    var calls: nat
    /** The pairs in the order in which they were assessed. */
    ghost var log: seq<Pair>
    /** Some poll said that the run was cancelled. */
    ghost var interrupted: bool

    ghost predicate Valid()
      reads this
    {
      && AssessedOnce(log, assessed) && Counts(assessed, comparisons, candidatesCreated, autoLinksCreated)
      && (interrupted ==> polls > 0 && world.cancelled(polls - 1))
    }

    constructor (world: World, active: set<Occurrence>)
      ensures Valid() && this.world == world && this.active == active && resolved == {} && assessed == {} && !interrupted
    {
      this.world, this.active := world, active;
      resolved, assessed, log := {}, {}, [];
      comparisons, candidatesCreated, autoLinksCreated, polls, calls, interrupted := 0, 0, 0, 0, 0, false;
    }

    method IsCancelled() returns (cancelled: bool)
      requires Valid() && Sane(world)
      modifies this`polls, this`interrupted
      ensures Valid() && cancelled == world.cancelled(old(polls)) && polls == old(polls) + 1
      ensures interrupted == (old(interrupted) || cancelled)
      ensures old(interrupted) ==> cancelled
    {
      if interrupted {
        CancelledStays(world, polls - 1, polls);
      }
      cancelled := world.cancelled(polls);
      polls := polls + 1;
      interrupted := interrupted || cancelled;
    }

    /** The next database call. */
    method Succeeds() returns (ok: bool)
      modifies this`calls
    {
      ok := !world.faulty(calls);
      calls := calls + 1;
    }

    /** One candidate of the innermost loop. */
    method AssessPair(left: Occurrence, right: Occurrence) returns (ok: bool)
      requires Valid()
      modifies this`assessed, this`log, this`comparisons, this`candidatesCreated, this`autoLinksCreated, this`calls
      ensures Valid() && assessed == old(assessed) + {PairOf(left, right)}
      ensures PairOf(left, right) in old(assessed) ==> ok && log == old(log) && comparisons == old(comparisons)
      ensures PairOf(left, right) !in old(assessed) ==> log == old(log) + [PairOf(left, right)]
    {
      var pair := PairOf(left, right);
      if pair in assessed {
        assert assessed + {pair} == assessed;
        return true;
      }
      AssessedNext(log, assessed, left, right);
      assessed, log, comparisons := assessed + {pair}, log + [pair], Next(comparisons);
      if world.decide(left, right) == Unknown {
        return true;
      }
      ok := Succeeds();
      if ok {
        var stored := world.stored(calls);
        if stored.created {
          candidatesCreated := Next(candidatesCreated);
        }
        if stored.autoLinked {
          autoLinksCreated := Next(autoLinksCreated);
        }
      }
    }

    /** One occurrence: it is compared with the occurrences that the lookup returns. */
    method ProcessOccurrence(left: Occurrence) returns (ok: bool)
      requires Valid() && Sane(world)
      modifies this`assessed, this`log, this`comparisons, this`candidatesCreated, this`autoLinksCreated, this`calls,
        this`polls, this`interrupted
      ensures Valid() && old(assessed) <= assessed <= old(assessed) + PairsWith(active, left)
      ensures old(interrupted) ==> interrupted
      ensures ok && !interrupted && |Blocking(active, left)| <= BLOCKED_LIMIT ==> PairsWith(active, left) <= assessed
    {
      ok := Succeeds();
      if !ok {
        return;
      }
      var listed := world.listed(Blocking(active, left));
      ListedIsComplete(world, Blocking(active, left));
      var candidates := First(listed, BLOCKED_LIMIT);
      for i := 0 to |candidates|
        invariant Valid() && old(assessed) <= assessed <= old(assessed) + PairsWith(active, left)
        invariant interrupted == old(interrupted)
        invariant forall j | 0 <= j < i :: PairOf(left, candidates[j]) in assessed
      {
        assert candidates[i] in Blocking(active, left);
        var cancelled;
        ok, cancelled := CompareNext(left, candidates[i]);
        if !ok || cancelled {
          return;
        }
      }
    }

    /** One candidate of the inner loop: poll, assess. */
    method CompareNext(left: Occurrence, right: Occurrence) returns (ok: bool, cancelled: bool)
      requires Valid() && Sane(world) && right in Blocking(active, left)
      modifies this`assessed, this`log, this`comparisons, this`candidatesCreated, this`autoLinksCreated, this`calls,
        this`polls, this`interrupted
      ensures Valid() && old(assessed) <= assessed <= old(assessed) + PairsWith(active, left)
      ensures if cancelled then ok && interrupted else interrupted == old(interrupted)
      ensures ok && !cancelled ==> PairOf(left, right) in assessed
    {
      ok := true;
      cancelled := IsCancelled();
      if !cancelled {
        ok := AssessPair(left, right);
      }
    }

    /** One occurrence of the middle loop: poll, fetch, compare. */
    method VisitOccurrence(left: Occurrence) returns (ok: bool, cancelled: bool)
      requires Valid() && Sane(world)
      modifies this`assessed, this`log, this`comparisons, this`candidatesCreated, this`autoLinksCreated, this`calls,
        this`polls, this`interrupted
      ensures Valid() && old(assessed) <= assessed <= old(assessed) + PairsWith(active, left)
      ensures (old(interrupted) ==> interrupted) && (cancelled ==> interrupted)
      ensures ok && !interrupted && |Blocking(active, left)| <= BLOCKED_LIMIT ==> PairsWith(active, left) <= assessed
    {
      ok := true;
      cancelled := IsCancelled();
      if cancelled {
        return;
      }
      ok := Succeeds();
      if ok {
        ok := ProcessOccurrence(left);
      }
    }

    /** The occurrences of one file. */
    method ProcessOccurrences(occurrences: seq<Occurrence>) returns (ok: bool)
      requires Valid() && Sane(world)
      modifies this`assessed, this`log, this`comparisons, this`candidatesCreated, this`autoLinksCreated, this`calls,
        this`polls, this`interrupted
      ensures Valid() && old(assessed) <= assessed <= old(assessed) + PairsOf(active, occurrences)
      ensures old(interrupted) ==> interrupted
      ensures ok && !interrupted && Few(active, occurrences) ==> PairsOf(active, occurrences) <= assessed
    {
      ok := true;
      for i := 0 to |occurrences|
        invariant Valid() && ok && (old(interrupted) ==> interrupted)
        invariant Visited(active, occurrences, i, old(assessed), assessed, !interrupted && Few(active, occurrences))
      {
        ghost var before := assessed;
        var cancelled;
        ok, cancelled := VisitOccurrence(occurrences[i]);
        VisitedNext(active, occurrences, i, old(assessed), before, assessed, ok && !interrupted && Few(active, occurrences));
        if !ok || cancelled {
          VisitedIsWithin(active, occurrences, i + 1, old(assessed), assessed, false);
          return;
        }
      }
      VisitedIsWithin(active, occurrences, |occurrences|, old(assessed), assessed, !interrupted && Few(active, occurrences));
    }

    /** One file: synchronise, compare, mark. */
    method ProcessFile(file: nat) returns (ok: bool)
      requires Valid() && Sane(world)
      modifies this
      ensures Valid() && (old(interrupted) ==> interrupted)
      ensures (active == old(active) && resolved == old(resolved) && assessed == old(assessed) && !ok)
           || (active == Synchronized(old(active), file, world.current(file)) && resolved == old(resolved) + {file})
      ensures old(assessed) <= assessed <= old(assessed) + PairsOf(active, world.current(file))
      ensures ok && !interrupted && Few(active, world.current(file)) ==> PairsOf(active, world.current(file)) <= assessed
    {
      ok := Succeeds();
      if !ok {
        return;
      }
      active := Synchronized(active, file, world.current(file));
      resolved := resolved + {file};
      ok := ProcessOccurrences(world.current(file));
      if ok {
        var _ := IsCancelled();
        ok := Succeeds();
      }
    }

    /** One file of the outer loop: poll, process, and what the run has reached with it. */
    method VisitFile(ghost initial: set<Occurrence>, file: nat) returns (ok: bool, cancelled: bool)
      requires Valid() && Sane(world) && file in world.files
      requires Reached(world, initial, active, resolved, assessed, Whole(world, initial, interrupted))
      modifies this
      ensures Valid() && (old(interrupted) ==> interrupted) && (cancelled ==> interrupted)
      ensures old(resolved) <= resolved && (ok && !cancelled ==> file in resolved)
      ensures Reached(world, initial, active, resolved, assessed, ok && Whole(world, initial, interrupted))
    {
      ok := true;
      cancelled := IsCancelled();
      if cancelled {
        return;
      }
      ok := ProcessFile(file);
      ReachedNext(world, initial, old(active), old(resolved), old(assessed), old(interrupted), file, active, resolved, assessed,
                  ok && Whole(world, initial, interrupted));
    }

    /** `for file_id in files`. */
    method ProcessPage(ghost initial: set<Occurrence>, page: seq<nat>) returns (ok: bool)
      requires Valid() && Sane(world) && forall f | f in page :: f in world.files
      requires Reached(world, initial, active, resolved, assessed, Whole(world, initial, interrupted))
      modifies this
      ensures Valid() && (old(interrupted) ==> interrupted) && old(resolved) <= resolved
      ensures ok && !interrupted ==> forall f | f in page :: f in resolved
      ensures Reached(world, initial, active, resolved, assessed, ok && Whole(world, initial, interrupted))
    {
      ok := true;
      for i := 0 to |page|
        invariant Valid() && ok && (old(interrupted) ==> interrupted) && old(resolved) <= resolved
        invariant Through(page, i, resolved)
        invariant Reached(world, initial, active, resolved, assessed, Whole(world, initial, interrupted))
      {
        var cancelled;
        ok, cancelled := VisitNext(initial, page, i);
        if !ok || cancelled {
          return;
        }
      }
    }

    /** One turn of the loop over a page. */
    method VisitNext(ghost initial: set<Occurrence>, page: seq<nat>, i: nat) returns (ok: bool, cancelled: bool)
      requires Valid() && Sane(world) && i < |page| && page[i] in world.files && Through(page, i, resolved)
      requires Reached(world, initial, active, resolved, assessed, Whole(world, initial, interrupted))
      modifies this
      ensures Valid() && (old(interrupted) ==> interrupted) && (cancelled ==> interrupted) && old(resolved) <= resolved
      ensures ok && !cancelled ==> Through(page, i + 1, resolved)
      ensures Reached(world, initial, active, resolved, assessed, ok && Whole(world, initial, interrupted))
    {
      ok, cancelled := VisitFile(initial, page[i]);
      ThroughNext(page, i, old(resolved), resolved);
    }

    /** `process_identity_run`. */
    method ProcessRun(ghost initial: set<Occurrence>) returns (ok: bool)
      requires Valid() && Sane(world) && !interrupted
      requires active == initial && resolved == {} && assessed == {}
      modifies this
      ensures Valid()
      ensures Reached(world, initial, active, resolved, assessed, ok && Whole(world, initial, interrupted))
      ensures ok && !interrupted ==> forall f | f in world.files :: f in resolved
    {
      NothingReached(world, initial);
      ok := true;
      var open := true;
      while open
        invariant Valid() && ok
        invariant Reached(world, initial, active, resolved, assessed, Whole(world, initial, interrupted))
        invariant !open && !interrupted ==> forall f | f in world.files :: f in resolved
        decreases open, |Pending(world.files, resolved)|, !interrupted
      {
        var cancelled := IsCancelled();
        if cancelled {
          return;
        }
        ok := Succeeds();
        if !ok {
          return;
        }
        var unresolved := Unresolved(world.files, resolved);
        if unresolved == [] {
          open := false;
        } else {
          ghost var before := resolved;
          ok := ProcessPage(initial, First(unresolved, FILE_PAGE));
          if !ok {
            return;
          }
          PendingShrinks(world.files, before, resolved, unresolved[0]);
        }
      }
    }

    /** `resolve_workspace_identities`: the run and the status it is finished with. */
    method Resolve() returns (status: RunStatus, ok: bool)
      requires Valid() && Sane(world) && !interrupted && resolved == {} && assessed == {}
      modifies this
      ensures Valid() && Grounded(assessed, Universe(world, old(active)), world.files)
      ensures ok ==> status != Failed
      ensures status == Completed ==> ok && (forall f :: f in resolved <==> f in world.files)
      ensures status == Completed && Uncrowded(Universe(world, old(active)))
          ==> Covered(assessed, ActiveAfter(world, old(active), resolved), resolved)
    {
      ok := ProcessRun(active);
      var cancelled := IsCancelled();
      status := if cancelled then Cancelled else if !ok then Failed else Completed;
    }
  }

  /** The lookups of `occurrences` do not meet their limit. */
  ghost predicate Few(active: set<Occurrence>, occurrences: seq<Occurrence>) {
    forall l | l in occurrences :: |Blocking(active, l)| <= BLOCKED_LIMIT
  }

  /** The pairs of the first `i` occurrences, all of them when `whole`, were added to `start`. */
  ghost predicate Visited(
      active: set<Occurrence>, occurrences: seq<Occurrence>, i: nat, start: set<Pair>, assessed: set<Pair>, whole: bool)
    requires i <= |occurrences|
  {
    && start <= assessed <= start + PairsOf(active, occurrences[..i])
    && (whole ==> PairsOf(active, occurrences[..i]) <= assessed)
  }

  lemma VisitedNext(
      active: set<Occurrence>, occurrences: seq<Occurrence>, i: nat, start: set<Pair>, before: set<Pair>, assessed: set<Pair>,
      whole: bool)
    requires i < |occurrences| && Visited(active, occurrences, i, start, before, whole)
    requires before <= assessed <= before + PairsWith(active, occurrences[i])
    requires whole ==> PairsWith(active, occurrences[i]) <= assessed
    ensures Visited(active, occurrences, i + 1, start, assessed, whole)
  {
    PairsOfPrefix(active, occurrences, i);
  }

  lemma VisitedIsWithin(
      active: set<Occurrence>, occurrences: seq<Occurrence>, i: nat, start: set<Pair>, assessed: set<Pair>, whole: bool)
    requires i <= |occurrences| && Visited(active, occurrences, i, start, assessed, whole)
    ensures start <= assessed <= start + PairsOf(active, occurrences)
    ensures whole && i == |occurrences| ==> PairsOf(active, occurrences) <= assessed
  {
    assert forall l | l in occurrences[..i] :: l in occurrences;
    assert PairsOf(active, occurrences[..i]) <= PairsOf(active, occurrences);
    assert i == |occurrences| ==> occurrences[..i] == occurrences;
  }

  lemma PairsOfPrefix(active: set<Occurrence>, occurrences: seq<Occurrence>, i: nat)
    requires i < |occurrences|
    ensures PairsOf(active, occurrences[..i + 1]) == PairsOf(active, occurrences[..i]) + PairsWith(active, occurrences[i])
  {
    assert forall l | l in occurrences[..i + 1] :: l == occurrences[i] || l in occurrences[..i];
    assert occurrences[i] in occurrences[..i + 1] && forall l | l in occurrences[..i] :: l in occurrences[..i + 1];
  }

  // ---- the whole run

  /** Nothing was cancelled, and no lookup could meet its limit. */
  ghost predicate Whole(world: World, initial: set<Occurrence>, interrupted: bool) {
    !interrupted && Uncrowded(Universe(world, initial))
  }

  /** The first `n` files of the page are resolved. */
  ghost predicate Through(page: seq<nat>, n: nat, resolved: set<nat>) {
    n <= |page| && forall j | 0 <= j < n :: page[j] in resolved
  }

  lemma ThroughNext(page: seq<nat>, n: nat, before: set<nat>, after: set<nat>)
    requires n < |page| && Through(page, n, before) && before <= after
    ensures page[n] in after ==> Through(page, n + 1, after)
  {
  }

  /** What the run has done after the files of `resolved`; when `whole`, it missed nothing. */
  ghost predicate Reached(
      world: World, initial: set<Occurrence>, active: set<Occurrence>, resolved: set<nat>, assessed: set<Pair>, whole: bool) {
    && active == ActiveAfter(world, initial, resolved) && (forall f | f in resolved :: f in world.files)
    && Grounded(assessed, Universe(world, initial), world.files)
    && (whole ==> Covered(assessed, active, resolved))
  }

  lemma NothingReached(world: World, initial: set<Occurrence>)
    ensures Reached(world, initial, initial, {}, {}, true)
  {
    assert ActiveAfter(world, initial, {}) == initial;
  }

  lemma ReachedNext(
      world: World, initial: set<Occurrence>, active: set<Occurrence>, resolved: set<nat>, assessed: set<Pair>, interrupted: bool,
      file: nat, active': set<Occurrence>, resolved': set<nat>, assessed': set<Pair>, whole: bool)
    requires Sane(world) && file in world.files
    requires Reached(world, initial, active, resolved, assessed, Whole(world, initial, interrupted))
    requires (active' == active && resolved' == resolved && assessed' == assessed && !whole)
          || (active' == Synchronized(active, file, world.current(file)) && resolved' == resolved + {file})
    requires assessed <= assessed' <= assessed + PairsOf(active', world.current(file))
    requires whole ==> Whole(world, initial, interrupted)
    requires whole && Few(active', world.current(file)) ==> PairsOf(active', world.current(file)) <= assessed'
    ensures Reached(world, initial, active', resolved', assessed', whole)
  {
    if active' != active || resolved' != resolved || assessed' != assessed || whole {
      SynchronizedNext(world, initial, resolved, file);
      ActiveIsInUniverse(world, initial, resolved');
      assert forall o | o in world.current(file) :: o in Universe(world, initial);
      GroundedNext(Universe(world, initial), world.files, active', world.current(file), file, assessed, assessed');
      if whole {
        forall l | l in world.current(file) ensures |Blocking(active', l)| <= BLOCKED_LIMIT {
          UncrowdedWithin(Universe(world, initial), active', l);
        }
        CoveredNext(world, initial, resolved, file, assessed, assessed');
      }
    }
  }

  lemma PendingShrinks(files: seq<nat>, before: set<nat>, resolved: set<nat>, first: nat)
    requires before <= resolved && first in files && first !in before
    ensures |Pending(files, resolved)| <= |Pending(files, before)|
    ensures first in resolved ==> |Pending(files, resolved)| < |Pending(files, before)|
  {
    if first in resolved {
      SubsetIsNoLarger(Pending(files, resolved), Pending(files, before) - {first});
    } else {
      SubsetIsNoLarger(Pending(files, resolved), Pending(files, before));
    }
  }

  /** When no analysis superseded an occurrence, a completed run assessed exactly the pairs worth
      comparing with one member in a file of the run: the order of the files plays no part. */
  lemma AssessedExactly(world: World, initial: set<Occurrence>, resolved: set<nat>, assessed: set<Pair>, p: Pair)
    requires (forall f :: f in resolved <==> f in world.files)
    requires forall o | o in initial && o.file in world.files :: o in world.current(o.file)
    requires Grounded(assessed, Universe(world, initial), world.files)
    requires Covered(assessed, ActiveAfter(world, initial, resolved), resolved)
    ensures p in assessed
       <==> exists l, r :: l in Universe(world, initial) && l.file in world.files && r in Blocking(Universe(world, initial), l)
                           && p == PairOf(l, r)
  {
    assert Universe(world, initial) == ActiveAfter(world, initial, resolved);
  }
}
