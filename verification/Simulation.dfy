/** The virtual file system that a proposal revision is tried on before it is sealed. */
module Simulation {
  import opened Paths
  import opened FileTree

  datatype Review = Ready | ToReview | Accepted | Rejected | Blocked | Stale

  datatype Action = Keep | Move(root: nat, path: Path) | PlaceInReview(root: nat, path: Path)

  datatype Item = Item(id: nat, file: nat, action: Action, review: Review)

  datatype Revision = Revision(id: nat, workspace: nat, number: nat, items: seq<Item>)

  /** A scanned file. `sound` is the verdict on its volume and on its identity. */
  datatype ScannedFile = ScannedFile(file: nat, path: Path, sound: bool)

  /** `separator` is the one of the platform's native paths. */
  datatype RootScan = RootScan(root: nat, separator: char, files: seq<ScannedFile>)

  datatype PlannedMove = PlannedMove(item: nat, root: nat, source: Path, destination: Path)

  /** An outcome names the revision it was computed from, as its digest does. */
  datatype Outcome = Outcome(of: Revision, blockers: seq<nat>, directories: seq<(nat, Path)>, moves: seq<PlannedMove>)

  // ---- texts

  function SwapChar(c: char, separator: char): char {
    if c == '/' then separator else c
  }

  function Swap(text: string, separator: char): (r: string)
    ensures |r| == |text| && forall i | 0 <= i < |text| :: r[i] == SwapChar(text[i], separator)
  {
    seq(|text|, i requires 0 <= i < |text| => SwapChar(text[i], separator))
  }

  /** The display text of a path, with a separator. */
  function Display(path: Path, separator: char): string {
    Swap(Join(path), separator)
  }

  /** `case_key` of the display text. */
  function CaseKey(path: Path, separator: char): string {
    Lower(Display(path, separator))
  }

  lemma {:induction false} NoBackslash(path: Path)
    requires forall i | 0 <= i < |path| :: '\\' !in path[i]
    ensures '\\' !in Join(path)
  {
    if |path| > 1 {
      NoBackslash(path[1..]);
    }
  }

  lemma {:induction false} LowerOfJoin(path: Path)
    ensures Lower(Join(path)) == Join(Key(path))
  {
    if |path| > 1 {
      LowerOfJoin(path[1..]);
      assert Key(path)[1..] == Key(path[1..]);
      LowerOfConcat(path[0], "/" + Join(path[1..]));
      LowerOfConcat("/", Join(path[1..]));
      assert Lower("/") == "/";
    }
  }

  lemma LowerOfConcat(a: string, b: string)
    ensures Lower(a + b) == Lower(a) + Lower(b)
  {
    var c := a + b;
    forall i | 0 <= i < |c| ensures Lower(c)[i] == (Lower(a) + Lower(b))[i] {
    }
  }

  lemma LowerOfSwap(text: string, separator: char)
    requires separator in {'/', '\\'}
    ensures Lower(Swap(text, separator)) == Swap(Lower(text), separator)
  {
    forall i | 0 <= i < |text| ensures Lower(Swap(text, separator))[i] == Swap(Lower(text), separator)[i] {
    }
  }

  lemma SwapIsInjective(a: string, b: string, separator: char)
    requires '\\' !in a && '\\' !in b && separator in {'/', '\\'} && Swap(a, separator) == Swap(b, separator)
    ensures a == b
  {
    forall i | 0 <= i < |a| ensures a[i] == b[i] {
      assert Swap(a, separator)[i] == Swap(b, separator)[i];
      assert a[i] in a && b[i] in b;
    }
  }

  lemma NamesHaveNoBackslash(path: Path)
    requires IsRelative(path)
    ensures '\\' !in Join(Key(path)) && IsRelative(Key(path))
  {
    KeyIsRelative(path);
    NoBackslash(Key(path));
  }

  /** With one separator, two paths have the same key exactly when they differ in case only. */
  lemma SameKeyExactly(p: Path, q: Path, separator: char)
    requires IsRelative(p) && IsRelative(q) && separator in {'/', '\\'}
    ensures CaseKey(p, separator) == CaseKey(q, separator) <==> Key(p) == Key(q)
  {
    LowerOfSwap(Join(p), separator);
    LowerOfSwap(Join(q), separator);
    LowerOfJoin(p);
    LowerOfJoin(q);
    NamesHaveNoBackslash(p);
    NamesHaveNoBackslash(q);
    if CaseKey(p, separator) == CaseKey(q, separator) {
      SwapIsInjective(Join(Key(p)), Join(Key(q)), separator);
      JoinIsInjective(Key(p), Key(q));
    }
  }

  /** A scanned path with `/` and a displayed destination with `\` meet only when neither has
      a folder: occupied destinations inside folders go unnoticed on such volumes. */
  lemma MixedSeparatorsExactly(p: Path, d: Path)
    requires IsRelative(p) && IsRelative(d)
    ensures CaseKey(p, '/') == CaseKey(d, '\\') <==> Key(p) == Key(d) && |d| == 1
  {
    LowerOfSwap(Join(p), '/');
    LowerOfSwap(Join(d), '\\');
    LowerOfJoin(p);
    LowerOfJoin(d);
    NamesHaveNoBackslash(p);
    NamesHaveNoBackslash(d);
    var x, y := Join(Key(p)), Join(Key(d));
    if Key(p) == Key(d) && |d| == 1 {
      OneNameNoSeparator(Key(d));
      PlainSwap(y);
    }
    if Swap(x, '/') == Swap(y, '\\') {
      forall i | 0 <= i < |x| ensures x[i] == y[i] != '/' {
        assert Swap(x, '/')[i] == Swap(y, '\\')[i];
        assert x[i] in x;
      }
      JoinIsInjective(Key(p), Key(d));
      NoSeparatorOneName(Key(d));
    }
  }

  lemma PlainSwap(text: string)
    requires '/' !in text
    ensures Swap(text, '/') == Swap(text, '\\')
  {
    assert forall i | 0 <= i < |text| :: text[i] in text;
  }

  lemma SeparatorAt(path: Path)
    requires IsRelative(path) && |path| > 1
    ensures |path[0]| < |Join(path)| && Join(path)[|path[0]|] == '/'
  {
    JoinSplits(path);
  }

  lemma NoSeparatorOneName(path: Path)
    requires IsRelative(path) && forall i | 0 <= i < |Join(path)| :: Join(path)[i] != '/'
    ensures |path| == 1
  {
    if |path| > 1 {
      SeparatorAt(path);
    }
  }

  lemma OneNameNoSeparator(path: Path)
    requires IsRelative(path) && |path| == 1
    ensures '/' !in Join(path)
  {
  }

  // ---- what a revision asks for

  predicate Mutates(action: Action) {
    !action.Keep?
  }

  /** The items that a simulation has to place. */
  function Pending(items: seq<Item>): (pending: seq<Item>)
    ensures forall k | 0 <= k < |pending| :: Mutates(pending[k].action) && pending[k].review != Rejected
  {
    if items == [] then []
    else
      var last := items[|items| - 1];
      Pending(items[..|items| - 1]) + (if Mutates(last.action) && last.review != Rejected then [last] else [])
  }

  /** Components that `validate_component` lets through, as far as paths go. */
  predicate ValidDestination(path: Path) {
    IsRelative(path) && |Display(path, '\\')| <= 240
  }

  function SourceOf(items: seq<Item>, scan: RootScan, id: nat): Option<ScannedFile> {
    LastFile(items, scan.files, id)
  }

  /** The last scanned file whose item (the last one with that file) has this id. */
  function LastFile(items: seq<Item>, files: seq<ScannedFile>, id: nat): (r: Option<ScannedFile>)
    ensures r.Some? ==> r.value in files
  {
    if files == [] then None
    else
      var last := files[|files| - 1];
      if ItemOf(items, last.file) == Some(id) then Some(last) else LastFile(items, files[..|files| - 1], id)
  }

  function ItemOf(items: seq<Item>, file: nat): Option<nat> {
    if items == [] then None
    else
      var last := items[|items| - 1];
      if last.file == file then Some(last.id) else ItemOf(items[..|items| - 1], file)
  }

  function OccupiedKeys(scan: RootScan): set<(nat, string)> {
    set f | f in scan.files :: (scan.root, CaseKey(f.path, scan.separator))
  }

  function DestinationKey(item: Item): (nat, string)
    requires Mutates(item.action)
  {
    (item.action.root, CaseKey(item.action.path, '\\'))
  }

  /** A pending item that can be placed, whatever the others do. */
  predicate Placeable(scan: RootScan, source: ScannedFile, item: Item)
    requires Mutates(item.action)
  {
    && ValidDestination(item.action.path) && DestinationKey(item) !in OccupiedKeys(scan)
    && item.action.root == scan.root && source.sound
  }

  predicate Reviewable(item: Item) {
    item.review == Rejected || item.review !in {Blocked, Stale}
  }

  /** Nothing in the revision blocks: every item that is not rejected is current, and the
      pending ones can be placed, apart from each other. */
  ghost predicate Clean(items: seq<Item>, all: seq<Item>, scan: RootScan) {
    && (forall i | 0 <= i < |items| :: Reviewable(items[i]))
    && (forall k | 0 <= k < |Pending(items)| :: CleanAt(Pending(items), all, scan, k))
  }

  ghost predicate CleanAt(pending: seq<Item>, all: seq<Item>, scan: RootScan, k: nat)
    requires k < |pending| && forall j | 0 <= j < |pending| :: Mutates(pending[j].action)
  {
    && SourceOf(all, scan, pending[k].id).Some?
    && Placeable(scan, SourceOf(all, scan, pending[k].id).value, pending[k])
    && forall j | 0 <= j < k :: DestinationKey(pending[j]) != DestinationKey(pending[k])
  }

  /** The moves that place the pending items, in order. */
  ghost predicate Places(pending: seq<Item>, all: seq<Item>, scan: RootScan, moves: seq<PlannedMove>) {
    && |moves| == |pending|
    && forall k | 0 <= k < |pending| ::
         && Mutates(pending[k].action) && SourceOf(all, scan, pending[k].id).Some?
         && moves[k] == PlannedMove(pending[k].id, scan.root, SourceOf(all, scan, pending[k].id).value.path, pending[k].action.path)
  }

  function MoveOf(revision: Revision, scan: RootScan, item: Item): PlannedMove
    requires Mutates(item.action) && SourceOf(revision.items, scan, item.id).Some?
  {
    PlannedMove(item.id, scan.root, SourceOf(revision.items, scan, item.id).value.path, item.action.path)
  }

  lemma PendingNext(items: seq<Item>, i: nat)
    requires i < |items|
    ensures Pending(items[..i + 1])
         == Pending(items[..i]) + (if Mutates(items[i].action) && items[i].review != Rejected then [items[i]] else [])
  {
    assert items[..i + 1][..i] == items[..i];
  }

  // ---- directories

  /** Proper folder prefixes of the pending destinations, as keys. */
  ghost predicate NeededKey(pending: seq<Item>, key: (nat, string)) {
    exists k, n :: 0 <= k < |pending| && Mutates(pending[k].action) && 1 <= n < |pending[k].action.path|
                   && key == (pending[k].action.root, CaseKey(pending[k].action.path[..n], '\\'))
  }

  function DirectoryKey(d: (nat, Path)): (nat, string) {
    (d.0, CaseKey(d.1, '\\'))
  }

  /** The folders considered that do not exist, each once, its own folders before it. */
  ghost predicate CreatesEach(existing: set<(nat, string)>, planned: set<(nat, string)>, directories: seq<(nat, Path)>) {
    && (forall x | 0 <= x < |directories| :: DirectoryKey(directories[x]) in planned - existing)
    && (forall key | key in planned - existing :: exists x :: 0 <= x < |directories| && DirectoryKey(directories[x]) == key)
    && (forall x, y | 0 <= x < y < |directories| :: DirectoryKey(directories[x]) != DirectoryKey(directories[y]))
    && (forall y | 0 <= y < |directories| :: ParentsBefore(existing, directories, y))
  }

  ghost predicate PlansNeeded(pending: seq<Item>, planned: set<(nat, string)>) {
    forall key :: key in planned <==> NeededKey(pending, key)
  }

  ghost predicate ParentsBefore(existing: set<(nat, string)>, directories: seq<(nat, Path)>, y: nat)
    requires y < |directories|
  {
    forall n | 1 <= n < |directories[y].1| ::
      KnownBefore(existing, directories, y, (directories[y].0, CaseKey(directories[y].1[..n], '\\')))
  }

  ghost predicate KnownBefore(existing: set<(nat, string)>, directories: seq<(nat, Path)>, y: nat, key: (nat, string))
    requires y <= |directories|
  {
    key in existing || exists x :: 0 <= x < y && DirectoryKey(directories[x]) == key
  }

  // ---- the simulation

  /** What the loop keeps while nothing blocks. */
  ghost predicate Placed(revision: Revision, scan: RootScan, i: nat, occupied: set<(nat, string)>, moves: seq<PlannedMove>)
    requires i <= |revision.items|
  {
    var pending := Pending(revision.items[..i]);
    && Places(pending, revision.items, scan, moves)
    && (forall key :: key in occupied <==>
          (key in OccupiedKeys(scan) || exists k :: 0 <= k < |pending| && DestinationKey(pending[k]) == key))
  }

  lemma CleanNext(revision: Revision, scan: RootScan, i: nat)
    requires i < |revision.items|
    ensures var items, item := revision.items, revision.items[i];
            Clean(items[..i + 1], items, scan) <==>
              && Clean(items[..i], items, scan) && Reviewable(item)
              && (Mutates(item.action) && item.review != Rejected ==>
                    CleanAt(Pending(items[..i]) + [item], items, scan, |Pending(items[..i])|))
  {
    var items, item := revision.items, revision.items[i];
    PendingNext(items, i);
    assert items[..i + 1] == items[..i] + [item];
    var before, after := Pending(items[..i]), Pending(items[..i + 1]);
    forall k | 0 <= k < |before| ensures CleanAt(after, items, scan, k) <==> CleanAt(before, items, scan, k) {
      assert forall j | 0 <= j <= k :: after[j] == before[j];
    }
  }

  lemma PlacedNext(revision: Revision, scan: RootScan, i: nat, occupied: set<(nat, string)>, moves: seq<PlannedMove>, move: PlannedMove)
    requires i < |revision.items| && Placed(revision, scan, i, occupied, moves)
    requires Mutates(revision.items[i].action) && revision.items[i].review != Rejected
    requires SourceOf(revision.items, scan, revision.items[i].id).Some?
    requires move == MoveOf(revision, scan, revision.items[i])
    ensures Placed(revision, scan, i + 1, occupied + {DestinationKey(revision.items[i])}, moves + [move])
  {
    var before, item := Pending(revision.items[..i]), revision.items[i];
    PendingNext(revision.items, i);
    var after := before + [item];
    assert after[|before|] == item;
    forall k | 0 <= k < |before| ensures after[k] == before[k] {
    }
    forall key | key in occupied ensures key in OccupiedKeys(scan) || exists k :: 0 <= k < |after| && DestinationKey(after[k]) == key {
      if key !in OccupiedKeys(scan) {
        var k :| 0 <= k < |before| && DestinationKey(before[k]) == key;
        assert DestinationKey(after[k]) == key;
      }
    }
  }

  lemma CreatesNext(existing: set<(nat, string)>, planned: set<(nat, string)>, directories: seq<(nat, Path)>, root: nat, path: Path, n: nat)
    requires CreatesEach(existing, planned, directories) && 1 <= n < |path|
    requires forall m | 1 <= m < n :: (root, CaseKey(path[..m], '\\')) in planned
    ensures var key := (root, CaseKey(path[..n], '\\'));
            CreatesEach(existing, planned + {key}, if key in existing || key in planned then directories
                                                   else directories + [(root, path[..n])])
  {
    var key, longer := (root, CaseKey(path[..n], '\\')), directories + [(root, path[..n])];
    if key !in existing && key !in planned {
      assert DirectoryKey(longer[|directories|]) == key;
      forall m | 1 <= m < n ensures KnownBefore(existing, longer, |directories|, (root, CaseKey(path[..n][..m], '\\'))) {
        assert path[..n][..m] == path[..m];
        KnownIn(existing, planned, directories, longer, (root, CaseKey(path[..m], '\\')));
      }
      forall y | 0 <= y < |directories| ensures ParentsBefore(existing, longer, y) {
        assert ParentsBefore(existing, directories, y);
        StillParentsBefore(existing, directories, longer, y);
      }
      forall k | k in (planned + {key}) - existing ensures exists x :: 0 <= x < |longer| && DirectoryKey(longer[x]) == k {
        if k != key {
          KnownIn(existing, planned, directories, longer, k);
        }
      }
      forall x | 0 <= x < |directories| ensures longer[x] == directories[x] && DirectoryKey(longer[x]) in planned - existing {
      }
    } else {
      assert forall k | k in (planned + {key}) - existing :: k in planned - existing;
    }
  }

  lemma KnownIn(existing: set<(nat, string)>, planned: set<(nat, string)>, directories: seq<(nat, Path)>,
                longer: seq<(nat, Path)>, key: (nat, string))
    requires CreatesEach(existing, planned, directories) && directories <= longer && key in planned
    ensures KnownBefore(existing, longer, |directories|, key)
  {
    if key !in existing {
      assert key in planned - existing;
      var x :| 0 <= x < |directories| && DirectoryKey(directories[x]) == key;
      assert longer[x] == directories[x];
    }
  }

  lemma StillParentsBefore(existing: set<(nat, string)>, directories: seq<(nat, Path)>, longer: seq<(nat, Path)>, y: nat)
    requires directories <= longer && y < |directories| && ParentsBefore(existing, directories, y)
    ensures ParentsBefore(existing, longer, y)
  {
    forall n | 1 <= n < |longer[y].1|
      ensures KnownBefore(existing, longer, y, (longer[y].0, CaseKey(longer[y].1[..n], '\\')))
    {
      var key := (directories[y].0, CaseKey(directories[y].1[..n], '\\'));
      assert KnownBefore(existing, directories, y, key);
      if key !in existing {
        var x :| 0 <= x < y && DirectoryKey(directories[x]) == key;
        assert longer[x] == directories[x];
      }
    }
  }

  ghost predicate Prefixed(planned: set<(nat, string)>, before: set<(nat, string)>, root: nat, path: Path, n: nat) {
    forall key :: key in planned <==>
      (key in before || exists m :: 1 <= m < n && m < |path| && key == (root, CaseKey(path[..m], '\\')))
  }

  lemma PrefixedNext(planned: set<(nat, string)>, before: set<(nat, string)>, root: nat, path: Path, n: nat)
    requires Prefixed(planned, before, root, path, n) && 1 <= n < |path|
    ensures Prefixed(planned + {(root, CaseKey(path[..n], '\\'))}, before, root, path, n + 1)
  {
  }

  /** The folders of one destination. */
  method AddDirectories(root: nat, path: Path, existing: set<(nat, string)>, planned: set<(nat, string)>, directories: seq<(nat, Path)>)
    returns (nowPlanned: set<(nat, string)>, nowDirectories: seq<(nat, Path)>)
    requires CreatesEach(existing, planned, directories) && path != []
    ensures CreatesEach(existing, nowPlanned, nowDirectories) && Prefixed(nowPlanned, planned, root, path, |path|)
  {
    nowPlanned, nowDirectories := planned, directories;
    for n := 1 to |path|
      invariant CreatesEach(existing, nowPlanned, nowDirectories) && Prefixed(nowPlanned, planned, root, path, n)
    {
      var key := (root, CaseKey(path[..n], '\\'));
      CreatesNext(existing, nowPlanned, nowDirectories, root, path, n);
      PrefixedNext(nowPlanned, planned, root, path, n);
      if key !in existing && key !in nowPlanned {
        nowDirectories := nowDirectories + [(root, path[..n])];
      }
      nowPlanned := nowPlanned + {key};
    }
  }

  lemma PlansNeededNext(pending: seq<Item>, item: Item, planned: set<(nat, string)>, after: set<(nat, string)>)
    requires Mutates(item.action) && PlansNeeded(pending, planned)
    requires Prefixed(after, planned, item.action.root, item.action.path, |item.action.path|)
    ensures PlansNeeded(pending + [item], after)
  {
    var longer := pending + [item];
    assert longer[|pending|] == item;
    forall key ensures key in after <==> NeededKey(longer, key) {
      if NeededKey(pending, key) {
        var k, n :| 0 <= k < |pending| && Mutates(pending[k].action) && 1 <= n < |pending[k].action.path|
                    && key == (pending[k].action.root, CaseKey(pending[k].action.path[..n], '\\'));
        assert longer[k] == pending[k];
      }
      if NeededKey(longer, key) {
        var k, n :| 0 <= k < |longer| && Mutates(longer[k].action) && 1 <= n < |longer[k].action.path|
                    && key == (longer[k].action.root, CaseKey(longer[k].action.path[..n], '\\'));
        assert k < |pending| ==> longer[k] == pending[k];
      }
    }
  }

  /** What an unblocked outcome contains: a move for each pending item, and exactly the
      missing folders of their destinations. */
  ghost predicate Unblocked(revision: Revision, scan: RootScan, existing: set<(nat, string)>, outcome: Outcome) {
    && Clean(revision.items, revision.items, scan)
    && Places(Pending(revision.items), revision.items, scan, outcome.moves)
    && exists planned :: PlansNeeded(Pending(revision.items), planned) && CreatesEach(existing, planned, outcome.directories)
  }

  datatype Progress = Progress(
    occupied: set<(nat, string)>, planned: set<(nat, string)>, blockers: seq<nat>, directories: seq<(nat, Path)>,
    moves: seq<PlannedMove>)

  /** What the loop of `simulate` keeps. */
  ghost predicate Simulating(revision: Revision, scan: RootScan, existing: set<(nat, string)>, i: nat, p: Progress)
    requires i <= |revision.items|
  {
    && CreatesEach(existing, p.planned, p.directories)
    && (p.blockers == [] <==> Clean(revision.items[..i], revision.items, scan))
    && (p.blockers == [] ==>
          Placed(revision, scan, i, p.occupied, p.moves) && PlansNeeded(Pending(revision.items[..i]), p.planned))
  }

  /** One item of the loop. */
  method SimulateItem(revision: Revision, scan: RootScan, existing: set<(nat, string)>, i: nat, p: Progress) returns (r: Option<Progress>)
    requires i < |revision.items| && Simulating(revision, scan, existing, i, p)
    ensures r.Some? ==> Simulating(revision, scan, existing, i + 1, r.value)
    ensures r.None? ==> revision.items[i].review != Rejected && SourceOf(revision.items, scan, revision.items[i].id).None?
  {
    var item := revision.items[i];
    CleanNext(revision, scan, i);
    PendingNext(revision.items, i);
    if item.review == Rejected {
      return Some(p);
    }
    var source := SourceOf(revision.items, scan, item.id);
    if source.None? {
      return None;
    }
    if item.review in {Blocked, Stale} {
      return Some(p.(blockers := p.blockers + [item.id]));
    }
    if !Mutates(item.action) {
      return Some(p);
    }
    var q := PlaceItem(revision, scan, existing, i, p);
    r := Some(q);
  }

  predicate Free(p: Progress, scan: RootScan, source: ScannedFile, item: Item)
    requires Mutates(item.action)
  {
    ValidDestination(item.action.path) && DestinationKey(item) !in p.occupied && item.action.root == scan.root && source.sound
  }

  lemma FreeIsClean(revision: Revision, scan: RootScan, existing: set<(nat, string)>, i: nat, p: Progress)
    requires i < |revision.items| && Simulating(revision, scan, existing, i, p) && p.blockers == []
    requires Mutates(revision.items[i].action) && revision.items[i].review != Rejected
    requires SourceOf(revision.items, scan, revision.items[i].id).Some?
    ensures var before, item := Pending(revision.items[..i]), revision.items[i];
            Free(p, scan, SourceOf(revision.items, scan, item.id).value, item)
            <==> CleanAt(before + [item], revision.items, scan, |before|)
  {
    var before, item := Pending(revision.items[..i]), revision.items[i];
    assert (before + [item])[|before|] == item;
    assert forall k | 0 <= k < |before| :: (before + [item])[k] == before[k];
  }

  /** The checks on a pending item, its folders and its move. */
  method PlaceItem(revision: Revision, scan: RootScan, existing: set<(nat, string)>, i: nat, p: Progress) returns (q: Progress)
    requires i < |revision.items| && Simulating(revision, scan, existing, i, p)
    requires Mutates(revision.items[i].action) && revision.items[i].review !in {Rejected, Blocked, Stale}
    requires SourceOf(revision.items, scan, revision.items[i].id).Some?
    ensures Simulating(revision, scan, existing, i + 1, q)
  {
    var item := revision.items[i];
    var source := SourceOf(revision.items, scan, item.id).value;
    CleanNext(revision, scan, i);
    if p.blockers == [] {
      FreeIsClean(revision, scan, existing, i, p);
    }
    if !Free(p, scan, source, item) {
      var taken := ValidDestination(item.action.path) && DestinationKey(item) !in p.occupied;
      q := p.(blockers := p.blockers + [item.id], occupied := p.occupied + (if taken then {DestinationKey(item)} else {}));
      return;
    }
    var planned, directories := AddDirectories(item.action.root, item.action.path, existing, p.planned, p.directories);
    q := Progress(p.occupied + {DestinationKey(item)}, planned, p.blockers, directories, p.moves + [MoveOf(revision, scan, item)]);
    if p.blockers == [] {
      PlacedNext(revision, scan, i, p.occupied, p.moves, MoveOf(revision, scan, item));
      PendingNext(revision.items, i);
      PlansNeededNext(Pending(revision.items[..i]), item, p.planned, planned);
    }
  }

  ghost predicate Simulated(revision: Revision, scan: RootScan, existing: set<(nat, string)>, outcome: Outcome) {
    && outcome.of == revision
    && (outcome.blockers == [] <==> Clean(revision.items, revision.items, scan))
    && (outcome.blockers == [] ==> Unblocked(revision, scan, existing, outcome))
  }

  /** `VirtualFileSystem::simulate`: without a blocker exactly when the revision is clean. */
  method Simulate(revision: Revision, scan: RootScan, existing: set<(nat, string)>) returns (r: Option<Outcome>)
    ensures r.Some? ==> Simulated(revision, scan, existing, r.value)
    ensures r.None? ==> exists item :: item in revision.items && item.review != Rejected
                                       && SourceOf(revision.items, scan, item.id).None?
  {
    var p := Progress(OccupiedKeys(scan), {}, [], [], []);
    assert revision.items[..0] == [];
    for i := 0 to |revision.items|
      invariant Simulating(revision, scan, existing, i, p)
    {
      var next := SimulateItem(revision, scan, existing, i, p);
      if next.None? {
        return None;
      }
      p := next.value;
    }
    assert revision.items[..|revision.items|] == revision.items;
    r := Some(Outcome(revision, p.blockers, p.directories, p.moves));
  }

  /** No two destinations of a clean revision are filed alike, and none is that of a scanned
      file, as far as the separators let the keys tell. */
  lemma CleanDestinationsAreApart(revision: Revision, scan: RootScan, j: nat, k: nat)
    requires Clean(revision.items, revision.items, scan) && j < k < |Pending(revision.items)|
    ensures Key(Pending(revision.items)[j].action.path) != Key(Pending(revision.items)[k].action.path)
  {
    var pending := Pending(revision.items);
    assert CleanAt(pending, revision.items, scan, j) && CleanAt(pending, revision.items, scan, k);
    SameKeyExactly(pending[j].action.path, pending[k].action.path, '\\');
  }

  lemma CleanDestinationsAreFree(revision: Revision, scan: RootScan, k: nat, f: ScannedFile)
    requires Clean(revision.items, revision.items, scan) && k < |Pending(revision.items)|
    requires f in scan.files && IsRelative(f.path) && scan.separator in {'/', '\\'}
    requires scan.separator == '\\' || |Pending(revision.items)[k].action.path| == 1
    ensures Key(Pending(revision.items)[k].action.path) != Key(f.path)
  {
    var d := Pending(revision.items)[k].action.path;
    assert CleanAt(Pending(revision.items), revision.items, scan, k);
    assert (scan.root, CaseKey(f.path, scan.separator)) in OccupiedKeys(scan);
    if scan.separator == '\\' {
      SameKeyExactly(d, f.path, '\\');
    } else {
      MixedSeparatorsExactly(f.path, d);
    }
  }
}
