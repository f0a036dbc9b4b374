/** Which source directories a plan empties: the walk over a source folder. */
module SourceCleanup {
  import opened Paths
  import opened FileTree
  import opened MovePlanner

  /** File names as the volume spells them; entries are filed under the lower-cased path. */
  type Names = map<Path, Name>

  ghost predicate Spelled(t: Tree, names: Names) {
    WellFormed(t) && names.Keys == t.Keys
    && forall p | p in t :: IsName(names[p]) && Lower(names[p]) == p[|p| - 1]
  }

  /** The text path under which a walk that started at `dir` sees the entry `q`. */
  function Spell(names: Names, dir: Path, q: Path): (raw: Path) {
    if |q| <= |dir| then dir
    else Spell(names, dir, Parent(q)) + [if q in names then names[q] else ""]
  }

  /** An entry that the plan takes care of: a directory, or a planned source file. */
  ghost predicate CaredFor(t: Tree, names: Names, dir: Path, sources: set<Path>, q: Path)
    requires q in t
  {
    t[q].Directory? || (t[q].File? && Spell(names, dir, q) in sources)
  }

  ghost predicate Below(dir: Path, q: Path, t: Tree) {
    q in t && AtOrUnder(q, Key(dir))
  }

  /** The tree at `dir` holds only directories and planned sources, and no destination is
      spelled at or under it. */
  ghost predicate FullyPlanned(t: Tree, names: Names, dir: Path, sources: set<Path>, destinations: seq<Path>) {
    && dir != [] && !DrivePrefixed(dir[0]) && IsDirectory(t, Key(dir))
    && (forall d | d in destinations :: !AtOrUnder(d, dir))
    && (forall q | Below(dir, q, t) :: CaredFor(t, names, dir, sources, q))
  }

  ghost function DirectoriesUnder(t: Tree, top: Path): set<Path> {
    set q | q in t && t[q].Directory? && AtOrUnder(q, top)
  }

  ghost function Keys(list: seq<Path>): set<Path> {
    set x | 0 <= x < |list| :: Key(list[x])
  }

  ghost predicate DistinctKeys(list: seq<Path>) {
    forall x, y | 0 <= x < y < |list| :: Key(list[x]) != Key(list[y])
  }

  lemma KeysConcat(a: seq<Path>, b: seq<Path>)
    ensures Keys(a + b) == Keys(a) + Keys(b)
  {
    var c := a + b;
    forall k | k in Keys(a) ensures k in Keys(c) {
      var x :| 0 <= x < |a| && Key(a[x]) == k;
      assert c[x] == a[x];
    }
    forall k | k in Keys(b) ensures k in Keys(c) {
      var x :| 0 <= x < |b| && Key(b[x]) == k;
      assert c[|a| + x] == b[x];
    }
  }

  lemma DistinctConcat(a: seq<Path>, b: seq<Path>)
    requires DistinctKeys(a) && DistinctKeys(b) && Keys(a) !! Keys(b)
    ensures DistinctKeys(a + b)
  {
    var c := a + b;
    forall x, y | 0 <= x < y < |c| ensures Key(c[x]) != Key(c[y]) {
      if x < |a| <= y {
        assert Key(a[x]) in Keys(a) && Key(b[y - |a|]) in Keys(b);
      }
    }
  }

  /** `list` names every directory of the tree at `dir` once, each spelled under `dir`. */
  ghost predicate ListsTree(t: Tree, dir: Path, list: seq<Path>) {
    Keys(list) == DirectoriesUnder(t, Key(dir)) && DistinctKeys(list) && SpelledUnder(dir, list)
  }

  ghost predicate SpelledUnder(dir: Path, list: seq<Path>) {
    forall x | 0 <= x < |list| :: AtOrUnder(list[x], dir) && IsRelative(list[x])
  }

  /** The `&mut Vec<String>` that the walk pushes onto. */
  class PathList {
    var items: seq<Path>

    constructor ()
      ensures items == []
    {
      items := [];
    }

    method Push(path: Path)
      modifies this
      ensures items == old(items) + [path]
    {
      items := items + [path];
    }
  }

  function Children(t: Tree, top: Path): set<Path> {
    set q | q in t && q != [] && Parent(q) == top
  }

  ghost function Inside(t: Tree, top: Path): set<Path> {
    set q | q in t && AtOrUnder(q, top)
  }

  /** A child of `dir` as the walk spells it. */
  lemma ChildSpelling(t: Tree, names: Names, dir: Path, child: Path)
    requires Spelled(t, names) && IsRelative(dir) && child in Children(t, Key(dir))
    ensures Key(dir + [names[child]]) == child && IsRelative(dir + [names[child]])
    ensures |child| == |dir| + 1 && AtOrUnder(child, Key(dir))
  {
    KeyAppend(dir, names[child]);
    assert child == Parent(child) + [child[|child| - 1]];
    assert IsName(names[child]);
  }

  lemma ChildIsSmaller(t: Tree, dir: Path, child: Path)
    requires IsDirectory(t, dir) && child in Children(t, dir)
    ensures Inside(t, child) < Inside(t, dir)
  {
    forall q | q in Inside(t, child) ensures q in Inside(t, dir) {
      assert AtOrUnder(child, dir);
      AtOrUnderTransitive(q, child, dir);
    }
    assert dir in Inside(t, dir) && dir !in Inside(t, child);
  }

  /** The walk that starts at a child spells what it sees as the walk from `dir` does. */
  lemma {:induction false} ChildSpells(names: Names, dir: Path, child: Path, q: Path)
    requires child in names && |child| == |dir| + 1 && AtOrUnder(q, child)
    ensures Spell(names, dir + [names[child]], q) == Spell(names, dir, q)
    decreases |q|
  {
    if |q| > |child| {
      assert AtOrUnder(Parent(q), child);
      ChildSpells(names, dir, child, Parent(q));
    } else {
      assert q == child;
      assert Spell(names, dir, Parent(q)) == dir;
    }
  }

  lemma {:induction false} SpellingIsFiled(t: Tree, names: Names, dir: Path, q: Path)
    requires Spelled(t, names) && dir != [] && q in t && AtOrUnder(q, Key(dir))
    ensures Key(Spell(names, dir, q)) == q
    decreases |q|
  {
    if |q| > |dir| {
      ParentBelow(t, Key(dir), q);
      assert Lower(names[q]) == q[|q| - 1];
      SpellingIsFiled(t, names, dir, Parent(q));
      KeyAppend(Spell(names, dir, Parent(q)), names[q]);
    } else {
      assert q == q[..|dir|];
    }
  }

  lemma ParentBelow(t: Tree, top: Path, q: Path)
    requires WellFormed(t) && top != [] && q in t && AtOrUnder(q, top) && |q| > |top|
    ensures Parent(q) in t && AtOrUnder(Parent(q), top) && q == Parent(q) + [q[|q| - 1]]
  {
    assert ParentReady(t, q);
    assert Parent(q)[..|top|] == q[..|top|];
  }

  /** Every entry strictly below a directory is at or under exactly one child. */
  lemma UnderOneChild(t: Tree, dir: Path, q: Path)
    requires WellFormed(t) && q in t && |dir| < |q| && AtOrUnder(q, dir)
    ensures q[..|dir| + 1] in Children(t, dir) && AtOrUnder(q, q[..|dir| + 1])
  {
    if |dir| + 1 < |q| {
      AncestorsAreDirectories(t, q, |dir| + 1);
    } else {
      assert q == q[..|dir| + 1];
    }
    assert Parent(q[..|dir| + 1]) == q[..|dir|];
  }

  /** The same entry, cared for as seen from a child and as seen from `dir`. */
  lemma CaredForAlike(t: Tree, names: Names, dir: Path, sources: set<Path>, child: Path, q: Path)
    requires Spelled(t, names) && IsRelative(dir) && child in Children(t, Key(dir))
    requires Below(dir + [names[child]], q, t)
    ensures Below(dir, q, t)
    ensures CaredFor(t, names, dir + [names[child]], sources, q) <==> CaredFor(t, names, dir, sources, q)
  {
    ChildSpelling(t, names, dir, child);
    AtOrUnderTransitive(q, child, Key(dir));
    ChildSpells(names, dir, child, q);
  }

  lemma DestinationsOutside(dir: Path, name: Name, destinations: seq<Path>)
    requires forall d | d in destinations :: !AtOrUnder(d, dir)
    ensures forall d | d in destinations :: !AtOrUnder(d, dir + [name])
  {
    forall d | d in destinations ensures !AtOrUnder(d, dir + [name]) {
      if AtOrUnder(d, dir + [name]) {
        assert AtOrUnder(dir + [name], dir);
        AtOrUnderTransitive(d, dir + [name], dir);
      }
    }
  }

  lemma FullyPlannedChild(t: Tree, names: Names, dir: Path, sources: set<Path>, destinations: seq<Path>, child: Path)
    requires Spelled(t, names) && IsRelative(dir) && child in Children(t, Key(dir)) && IsDirectory(t, child)
    requires FullyPlanned(t, names, dir, sources, destinations)
    ensures FullyPlanned(t, names, dir + [names[child]], sources, destinations)
  {
    var raw := dir + [names[child]];
    ChildSpelling(t, names, dir, child);
    DestinationsOutside(dir, names[child], destinations);
    forall q | Below(raw, q, t) ensures CaredFor(t, names, raw, sources, q) {
      CaredForAlike(t, names, dir, sources, child, q);
    }
  }

  // ---- the walk

  lemma Regroup(a: seq<Path>, b: seq<Path>, c: seq<Path>)
    ensures (a + b) + c == a + (b + c)
  {
  }

  /** Directories below the children that were walked already. */
  ghost function WalkedDirectories(t: Tree, n: nat, walked: set<Path>): set<Path> {
    set q | q in t && t[q].Directory? && |q| > n && q[..n + 1] in walked
  }

  ghost predicate WalkedAreCaredFor(t: Tree, names: Names, dir: Path, sources: set<Path>, walked: set<Path>) {
    forall q | q in t && |q| > |dir| && q[..|dir| + 1] in walked :: CaredFor(t, names, dir, sources, q)
  }

  /** What the loop over the children keeps. */
  ghost predicate Walking(t: Tree, names: Names, dir: Path, sources: set<Path>, walked: set<Path>, list: seq<Path>) {
    && WalkedAreCaredFor(t, names, dir, sources, walked)
    && Keys(list) == WalkedDirectories(t, |dir|, walked) && DistinctKeys(list) && SpelledUnder(dir, list)
  }

  lemma WalkedOneFile(t: Tree, names: Names, dir: Path, sources: set<Path>, walked: set<Path>, list: seq<Path>, child: Path)
    requires Spelled(t, names) && IsRelative(dir) && child in Children(t, Key(dir))
    requires Walking(t, names, dir, sources, walked, list)
    requires t[child].File? && dir + [names[child]] in sources
    ensures Walking(t, names, dir, sources, walked + {child}, list)
  {
    ChildSpelling(t, names, dir, child);
    ChildIsSpelled(names, dir, child);
    OnlyTheFile(t, |dir|, walked, child);
    assert WalkedAreCaredFor(t, names, dir, sources, walked + {child});
  }

  lemma ChildIsSpelled(names: Names, dir: Path, child: Path)
    requires child in names && |child| == |dir| + 1
    ensures Spell(names, dir, child) == dir + [names[child]]
  {
    assert Spell(names, dir, Parent(child)) == dir;
  }

  lemma OnlyTheFile(t: Tree, n: nat, walked: set<Path>, child: Path)
    requires WellFormed(t) && child in t && |child| == n + 1 && !t[child].Directory?
    ensures forall q | q in t && |q| > n && q[..n + 1] == child :: q == child
    ensures WalkedDirectories(t, n, walked + {child}) == WalkedDirectories(t, n, walked)
  {
    forall q | q in t && |q| > n && q[..n + 1] == child ensures q == child {
      OnlyDirectoriesHaveInside(t, child, q);
    }
  }

  lemma OnlyDirectoriesHaveInside(t: Tree, p: Path, q: Path)
    requires WellFormed(t) && p in t && !t[p].Directory? && p != [] && q in t && AtOrUnder(q, p)
    ensures q == p
  {
    if |p| < |q| {
      AncestorsAreDirectories(t, q, |p|);
    } else {
      assert q == q[..|p|];
    }
  }

  lemma WalkedOneDirectory(t: Tree, names: Names, dir: Path, sources: set<Path>, destinations: seq<Path>,
                           walked: set<Path>, list: seq<Path>, child: Path, more: seq<Path>)
    requires Spelled(t, names) && IsRelative(dir) && child in Children(t, Key(dir)) && child !in walked
    requires Walking(t, names, dir, sources, walked, list)
    requires FullyPlanned(t, names, dir + [names[child]], sources, destinations)
    requires ListsTree(t, dir + [names[child]], more)
    ensures Walking(t, names, dir, sources, walked + {child}, list + more)
  {
    var raw := dir + [names[child]];
    ChildSpelling(t, names, dir, child);
    forall q | q in t && |q| > |dir| && q[..|dir| + 1] == child ensures CaredFor(t, names, dir, sources, q) {
      assert Below(raw, q, t);
      CaredForAlike(t, names, dir, sources, child, q);
    }
    WalkedDirectoriesGrow(t, |dir|, walked, child);
    KeysConcat(list, more);
    DistinctConcat(list, more);
    SpelledUnderBoth(dir, names[child], list, more);
  }

  lemma WalkedDirectoriesGrow(t: Tree, n: nat, walked: set<Path>, child: Path)
    requires |child| == n + 1 && child !in walked
    ensures WalkedDirectories(t, n, walked + {child}) == WalkedDirectories(t, n, walked) + DirectoriesUnder(t, child)
    ensures WalkedDirectories(t, n, walked) !! DirectoriesUnder(t, child)
  {
    forall q | q in t && t[q].Directory? ensures q in DirectoriesUnder(t, child) <==> |q| > n && q[..n + 1] == child {
    }
  }

  lemma SpelledUnderBoth(dir: Path, name: Name, list: seq<Path>, more: seq<Path>)
    requires SpelledUnder(dir, list) && SpelledUnder(dir + [name], more)
    ensures SpelledUnder(dir, list + more)
  {
    forall x | 0 <= x < |more| ensures AtOrUnder(more[x], dir) {
      assert AtOrUnder(dir + [name], dir);
      AtOrUnderTransitive(more[x], dir + [name], dir);
    }
  }

  lemma WalkedEverything(t: Tree, names: Names, dir: Path, sources: set<Path>, destinations: seq<Path>, list: seq<Path>)
    requires Spelled(t, names) && IsRelative(dir) && !DrivePrefixed(dir[0]) && IsDirectory(t, Key(dir))
    requires forall d | d in destinations :: !AtOrUnder(d, dir)
    requires Walking(t, names, dir, sources, Children(t, Key(dir)), list)
    ensures FullyPlanned(t, names, dir, sources, destinations)
    ensures ListsTree(t, dir, list + [dir])
  {
    var top := Key(dir);
    forall q | Below(dir, q, t) ensures CaredFor(t, names, dir, sources, q) {
      if |q| > |dir| {
        UnderOneChild(t, top, q);
      } else {
        assert q == q[..|dir|];
      }
    }
    WalkedWholeTree(t, dir, list);
  }

  lemma WalkedWholeTree(t: Tree, dir: Path, list: seq<Path>)
    requires WellFormed(t) && IsRelative(dir) && IsDirectory(t, Key(dir))
    requires Keys(list) == WalkedDirectories(t, |dir|, Children(t, Key(dir))) && DistinctKeys(list)
    requires SpelledUnder(dir, list)
    ensures ListsTree(t, dir, list + [dir])
  {
    var top := Key(dir);
    KeysConcat(list, [dir]);
    assert Keys([dir]) == {top} by {
      assert Key([dir][0]) in Keys([dir]);
    }
    forall q | q in DirectoriesUnder(t, top) ensures q in Keys(list) + {top} {
      if |q| > |dir| {
        UnderOneChild(t, top, q);
      } else {
        assert q == q[..|dir|];
      }
    }
    forall q | q in Keys(list) ensures AtOrUnder(q, top) && |q| > |dir| {
      assert q[..|dir| + 1] in Children(t, top);
      assert q[..|dir|] == Parent(q[..|dir| + 1]);
    }
    DistinctConcat(list, [dir]);
  }

  predicate DestinationAtOrUnder(destinations: seq<Path>, dir: Path) {
    exists d | d in destinations :: Join(d) == Join(dir) || Join(dir) + "/" <= Join(d)
  }

  lemma DestinationTestIsExact(destinations: seq<Path>, dir: Path)
    requires IsRelative(dir) && forall d | d in destinations :: IsRelative(d)
    ensures DestinationAtOrUnder(destinations, dir) <==> exists d | d in destinations :: AtOrUnder(d, dir)
  {
    forall d | d in destinations
      ensures AtOrUnder(d, dir) <==> Join(d) == Join(dir) || Join(dir) + "/" <= Join(d)
    {
      TextTestDecidesDescent(dir, d);
    }
  }

  /** `collect_fully_planned_directory_tree`; a path or read error counts as not safe. */
  method CollectFullyPlannedDirectoryTree(t: Tree, names: Names, dir: Path, sources: set<Path>, destinations: seq<Path>,
                                          removable: PathList)
    returns (safe: bool, ghost list: seq<Path>)
    requires Spelled(t, names) && IsRelative(dir) && forall d | d in destinations :: IsRelative(d)
    modifies removable
    ensures safe <==> FullyPlanned(t, names, dir, sources, destinations)
    ensures removable.items == old(removable.items) + list
    ensures safe ==> ListsTree(t, dir, list)
    decreases Inside(t, Key(dir)), 2
  {
    list := [];
    ghost var start := removable.items;
    DestinationTestIsExact(destinations, dir);
    if DestinationAtOrUnder(destinations, dir) || DrivePrefixed(dir[0]) || !IsDirectory(t, Key(dir)) {
      return false, list;
    }
    safe, list := WalkChildren(t, names, dir, sources, destinations, removable);
    if safe {
      WalkedEverything(t, names, dir, sources, destinations, list);
      removable.Push(dir);
      Regroup(start, list, [dir]);
      list := list + [dir];
    }
  }

  /** The loop over the entries of `dir`. */
  method WalkChildren(t: Tree, names: Names, dir: Path, sources: set<Path>, destinations: seq<Path>, removable: PathList)
    returns (safe: bool, ghost list: seq<Path>)
    requires Spelled(t, names) && IsRelative(dir) && (forall d | d in destinations :: IsRelative(d))
    requires IsDirectory(t, Key(dir))
    modifies removable
    ensures removable.items == old(removable.items) + list
    ensures safe ==> Walking(t, names, dir, sources, Children(t, Key(dir)), list)
    ensures !safe ==> !FullyPlanned(t, names, dir, sources, destinations)
    decreases Inside(t, Key(dir)), 1
  {
    list := [];
    ghost var start := removable.items;
    var children := Children(t, Key(dir));
    ghost var walked: set<Path> := {};
    while children != {}
      invariant walked + children == Children(t, Key(dir)) && walked !! children
      invariant removable.items == start + list
      invariant Walking(t, names, dir, sources, walked, list)
      decreases children
    {
      var child :| child in children;
      ghost var more;
      safe, more := WalkChild(t, names, dir, sources, destinations, removable, child, walked, list);
      Regroup(start, list, more);
      list := list + more;
      if !safe {
        return false, list;
      }
      children, walked := children - {child}, walked + {child};
    }
    assert walked == Children(t, Key(dir));
    return true, list;
  }

  /** One turn of the loop over the entries of `dir`. */
  method WalkChild(t: Tree, names: Names, dir: Path, sources: set<Path>, destinations: seq<Path>,
                   removable: PathList, child: Path, ghost walked: set<Path>, ghost list: seq<Path>)
    returns (safe: bool, ghost more: seq<Path>)
    requires Spelled(t, names) && IsRelative(dir) && (forall d | d in destinations :: IsRelative(d))
    requires IsDirectory(t, Key(dir)) && child in Children(t, Key(dir)) && child !in walked
    requires Walking(t, names, dir, sources, walked, list)
    modifies removable
    ensures removable.items == old(removable.items) + more
    ensures safe ==> Walking(t, names, dir, sources, walked + {child}, list + more)
    ensures !safe ==> !FullyPlanned(t, names, dir, sources, destinations)
    decreases Inside(t, Key(dir)), 0
  {
    var raw := dir + [names[child]];
    more := [];
    ChildSpelling(t, names, dir, child);
    ChildSpells(names, dir, child, child);
    assert Below(dir, child, t);
    if t[child].Directory? {
      ChildIsSmaller(t, Key(dir), child);
      safe, more := CollectFullyPlannedDirectoryTree(t, names, raw, sources, destinations, removable);
      if safe {
        WalkedOneDirectory(t, names, dir, sources, destinations, walked, list, child, more);
      } else if FullyPlanned(t, names, dir, sources, destinations) {
        FullyPlannedChild(t, names, dir, sources, destinations, child);
      }
    } else {
      safe := t[child].File? && raw in sources;
      assert list + more == list;
      if safe {
        WalkedOneFile(t, names, dir, sources, walked, list, child);
      }
    }
  }
}
