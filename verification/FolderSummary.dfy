/** The folder tree and category counts shown for a set of proposals. */
module FolderSummary {
  import opened Paths
  import opened FileTree

  datatype OperationKind = MoveProposal | RenameProposal | KeepInPlace | NoAction | OtherKind

  datatype Operation = Operation(kind: OperationKind, destination: seq<string>)

  datatype Category = Documents | Images | Videos | Archives | Installers | ToReview

  // ---- one operation

  function TrimStart(text: string): string {
    if text != "" && text[0] in {' ', '\t', '\n', '\r'} then TrimStart(text[1..]) else text
  }

  function TrimEnd(text: string): string {
    if text != "" && text[|text| - 1] in {' ', '\t', '\n', '\r'} then TrimEnd(text[..|text| - 1]) else text
  }

  /** `normalizeFolderName`. */
  function NormalizedName(value: string): Option<Name> {
    var trimmed := TrimEnd(TrimStart(value));
    if trimmed == "" || trimmed == "." || trimmed == ".." then None
    else if trimmed == "TO_REVIEW" then Some("À vérifier")
    else Some(trimmed)
  }

  function NormalizedNames(values: seq<string>): Path {
    if values == [] then []
    else
      var name := NormalizedName(values[0]);
      (if name.Some? then [name.value] else []) + NormalizedNames(values[1..])
  }

  /** `userFacingFolderPath`: never empty. */
  function FolderPath(operation: Operation): (path: Path)
    ensures path != []
  {
    var folders := NormalizedNames(operation.destination);
    if folders != [] then folders else ["À vérifier"]
  }

  predicate Countable(operation: Operation) {
    operation.kind in {MoveProposal, RenameProposal}
  }

  /** `categoryForOperation`. */
  function CategoryOf(operation: Operation): (category: Option<Category>)
    ensures Countable(operation) ==> category.Some?
  {
    if operation.kind in {KeepInPlace, NoAction} then None
    else
      var head := if operation.destination == [] then "" else operation.destination[0];
      if head in {"Documents", "Travail", "Administratif", "Études", "Etudes", "Personnel"} then Some(Documents)
      else if head in {"Images", "Photos", "Captures d’écran", "Captures d'écran", "Images téléchargées"} then Some(Images)
      else if head in {"Vidéos", "Videos"} then Some(Videos)
      else if head == "Archives" then Some(Archives)
      else if head == "Installateurs" then Some(Installers)
      else Some(ToReview)
  }

  // ---- the reference count

  /** How many of the paths lie at or under `p`. */
  function PrefixCount(paths: seq<Path>, p: Path): nat {
    if paths == [] then 0
    else PrefixCount(paths[..|paths| - 1], p) + (if AtOrUnder(paths[|paths| - 1], p) then 1 else 0)
  }

  lemma PrefixCountNext(paths: seq<Path>, path: Path, p: Path)
    ensures PrefixCount(paths + [path], p) == PrefixCount(paths, p) + (if AtOrUnder(path, p) then 1 else 0)
  {
    assert (paths + [path])[..|paths|] == paths;
  }

  lemma {:induction false} PrefixCountShrinks(paths: seq<Path>, p: Path, name: Name)
    ensures PrefixCount(paths, p + [name]) <= PrefixCount(paths, p)
  {
    if paths != [] {
      PrefixCountShrinks(paths[..|paths| - 1], p, name);
      var last := paths[|paths| - 1];
      if AtOrUnder(last, p + [name]) {
        assert AtOrUnder(p + [name], p);
        AtOrUnderTransitive(last, p + [name], p);
      }
    }
  }

  lemma {:induction false} PrefixCountRemoved(paths: seq<Path>, i: nat, p: Path)
    requires i < |paths|
    ensures PrefixCount(paths, p) == PrefixCount(Without(paths, i), p) + (if AtOrUnder(paths[i], p) then 1 else 0)
    decreases |paths|
  {
    var n := |paths| - 1;
    if i == n {
      assert Without(paths, i) == paths[..n];
    } else {
      PrefixCountRemoved(paths[..n], i, p);
      WithoutBeforeLast(paths, i);
      PrefixCountNext(Without(paths[..n], i), paths[n], p);
    }
  }

  function Without<T>(s: seq<T>, i: nat): seq<T>
    requires i < |s|
  {
    s[..i] + s[i + 1..]
  }

  lemma WithoutBeforeLast<T>(s: seq<T>, i: nat)
    requires i < |s| - 1
    ensures Without(s, i) == Without(s[..|s| - 1], i) + [s[|s| - 1]]
  {
  }

  lemma TakeLast<T>(a: seq<T>, b: seq<T>) returns (i: nat)
    requires a != [] && multiset(a) == multiset(b)
    ensures i < |b| && b[i] == a[|a| - 1] && multiset(a[..|a| - 1]) == multiset(Without(b, i))
  {
    var x := a[|a| - 1];
    assert x in multiset(a);
    i :| 0 <= i < |b| && b[i] == x;
    WithoutOne(a, |a| - 1);
    WithoutOne(b, i);
    assert Without(a, |a| - 1) == a[..|a| - 1];
  }

  lemma WithoutOne<T>(s: seq<T>, i: nat)
    requires i < |s|
    ensures multiset(Without(s, i)) == multiset(s) - multiset{s[i]}
  {
    assert s == s[..i] + [s[i]] + s[i + 1..];
  }

  /** The counts do not depend on the order of the operations. */
  lemma {:induction false} CountsIgnoreOrder(a: seq<Path>, b: seq<Path>, p: Path)
    requires multiset(a) == multiset(b)
    ensures PrefixCount(a, p) == PrefixCount(b, p)
    decreases |a|
  {
    assert |multiset(a)| == |a| && |multiset(b)| == |b|;
    if a != [] {
      var i := TakeLast(a, b);
      CountsIgnoreOrder(a[..|a| - 1], Without(b, i), p);
      PrefixCountRemoved(b, i, p);
    }
  }

  // ---- the mutable tree

  /** A node: its count, and its children by name. */
  datatype Node = Node(count: nat, children: map<Name, nat>)

  ghost predicate IsChild(nodes: seq<Node>, places: seq<Path>, i: nat, name: Name)
    requires i < |nodes| == |places|
  {
    name in nodes[i].children && i < nodes[i].children[name] < |nodes|
    && places[nodes[i].children[name]] == places[i] + [name]
  }

  ghost predicate HasParent(nodes: seq<Node>, places: seq<Path>, parents: seq<nat>, j: nat)
    requires j < |nodes| == |places| == |parents|
  {
    && parents[j] < j && places[j] != [] && places[parents[j]] == Parent(places[j])
    && places[j][|places[j]| - 1] in nodes[parents[j]].children
    && nodes[parents[j]].children[places[j][|places[j]| - 1]] == j
  }

  /** Node 0 holds the roots; every other node is the child, by its last name, of its parent. */
  ghost predicate Linked(nodes: seq<Node>, places: seq<Path>, parents: seq<nat>) {
    && |nodes| == |places| == |parents| > 0 && places[0] == []
    && (forall i, name | 0 <= i < |nodes| && name in nodes[i].children :: IsChild(nodes, places, i, name))
    && (forall j | 0 < j < |nodes| :: HasParent(nodes, places, parents, j))
    && (forall i, j | 0 <= i < j < |nodes| :: places[i] != places[j])
  }

  /** Whatever was added at a place below a node has its child there. */
  ghost predicate NoneMissing(nodes: seq<Node>, places: seq<Path>, added: seq<Path>)
    requires |nodes| == |places|
  {
    forall i, name | 0 <= i < |nodes| && PrefixCount(added, places[i] + [name]) > 0 :: name in nodes[i].children
  }

  /** Counts while `path` is being added: its first `k` prefixes are counted once more. */
  ghost predicate Counts(nodes: seq<Node>, places: seq<Path>, added: seq<Path>, path: Path, k: nat)
    requires |nodes| == |places|
  {
    forall i | 0 < i < |nodes| ::
      nodes[i].count == PrefixCount(added, places[i]) + (if |places[i]| <= k && AtOrUnder(path, places[i]) then 1 else 0)
  }

  /** Every node is on the way to something added, or to the path being added. */
  ghost predicate InUse(places: seq<Path>, added: seq<Path>, path: Path) {
    forall i | 0 < i < |places| :: PrefixCount(added, places[i]) > 0 || AtOrUnder(path, places[i])
  }

  function WithChild(nodes: seq<Node>, at: nat, name: Name): seq<Node>
    requires at < |nodes|
  {
    nodes[at := nodes[at].(children := nodes[at].children[name := |nodes|])] + [Node(0, map[])]
  }

  lemma NoNodeThere(nodes: seq<Node>, places: seq<Path>, parents: seq<nat>, at: nat, name: Name, j: nat)
    requires Linked(nodes, places, parents) && at < |nodes| && name !in nodes[at].children && j < |nodes|
    ensures places[j] != places[at] + [name]
  {
    if j > 0 {
      assert HasParent(nodes, places, parents, j);
      var last := places[j][|places[j]| - 1];
      assert places[j] == Parent(places[j]) + [last];
      if Parent(places[j]) == places[at] {
        assert parents[j] == at;
      } else {
        assert Parent(places[at] + [name]) == places[at];
      }
    }
  }

  lemma ChildAdded(nodes: seq<Node>, places: seq<Path>, parents: seq<nat>, at: nat, name: Name)
    requires Linked(nodes, places, parents) && at < |nodes| && name !in nodes[at].children
    ensures Linked(WithChild(nodes, at, name), places + [places[at] + [name]], parents + [at])
  {
    var after, there, n := WithChild(nodes, at, name), places + [places[at] + [name]], |nodes|;
    forall j | 0 <= j < n ensures there[j] != there[n] {
      NoNodeThere(nodes, places, parents, at, name, j);
    }
    forall i, m | 0 <= i <= n && m in after[i].children ensures IsChild(after, there, i, m) {
      if i < n && !(i == at && m == name) {
        assert IsChild(nodes, places, i, m);
      }
    }
    forall j | 0 < j <= n ensures HasParent(after, there, parents + [at], j) {
      if j < n {
        assert HasParent(nodes, places, parents, j);
      } else {
        assert Parent(there[n]) == places[at];
      }
    }
  }

  lemma ChildAddedCounts(nodes: seq<Node>, places: seq<Path>, added: seq<Path>, at: nat, name: Name, path: Path, k: nat)
    requires |nodes| == |places| && at < |nodes| && name !in nodes[at].children
    requires NoneMissing(nodes, places, added) && Counts(nodes, places, added, path, k) && |places[at]| >= k
    ensures NoneMissing(WithChild(nodes, at, name), places + [places[at] + [name]], added)
    ensures Counts(WithChild(nodes, at, name), places + [places[at] + [name]], added, path, k)
  {
    var place := places[at] + [name];
    forall m ensures PrefixCount(added, place + [m]) == 0 {
      PrefixCountShrinks(added, place, m);
    }
  }

  ghost predicate Growing(nodes: seq<Node>, places: seq<Path>, parents: seq<nat>, added: seq<Path>, path: Path, k: nat) {
    && Linked(nodes, places, parents) && NoneMissing(nodes, places, added) && Counts(nodes, places, added, path, k)
    && InUse(places, added, path)
  }

  lemma ChildGrows(nodes: seq<Node>, places: seq<Path>, parents: seq<nat>, added: seq<Path>, at: nat, name: Name, path: Path, k: nat)
    requires Growing(nodes, places, parents, added, path, k)
    requires at < |nodes| && name !in nodes[at].children && |places[at]| == k && AtOrUnder(path, places[at] + [name])
    ensures Growing(WithChild(nodes, at, name), places + [places[at] + [name]], parents + [at], added, path, k)
  {
    ChildAdded(nodes, places, parents, at, name);
    ChildAddedCounts(nodes, places, added, at, name, path, k);
  }

  /** The nested maps, each node under its own number. */
  class FolderTree {
    var nodes: seq<Node>
    ghost var places: seq<Path>
    ghost var parents: seq<nat>
    ghost var added: seq<Path>

    /** The nodes count exactly what was added at or under them, none is missing and none idle. */
    ghost predicate Valid()
      reads this
    {
      && Linked(nodes, places, parents) && NoneMissing(nodes, places, added) && Counts(nodes, places, added, [], 0)
      && InUse(places, added, [])
    }

    constructor ()
      ensures Valid() && added == []
    {
      nodes, places, parents, added := [Node(0, map[])], [[]], [0], [];
    }

    /** The next level down, created if it is missing. */
    method ChildOf(at: nat, name: Name, ghost path: Path, ghost k: nat) returns (child: nat)
      requires Growing(nodes, places, parents, added, path, k) && at < |nodes| && |places[at]| == k
      requires AtOrUnder(path, places[at] + [name])
      modifies this`nodes, this`places, this`parents
      ensures Growing(nodes, places, parents, added, path, k)
      ensures 0 < child < |nodes| && places[child] == old(places[at]) + [name]
      ensures old(places) <= places
    {
      if name in nodes[at].children {
        assert IsChild(nodes, places, at, name);
        return nodes[at].children[name];
      }
      ChildGrows(nodes, places, parents, added, at, name, path, k);
      child := |nodes|;
      var after := WithChild(nodes, at, name);
      ghost var longer := places + [places[at] + [name]];
      nodes, places, parents := after, longer, parents + [at];
    }

    /** `addFolderPath`. */
    method AddFolderPath(path: Path)
      requires Valid()
      modifies this
      ensures Valid() && added == old(added) + [path]
    {
      var at := 0;
      AddingStarts(nodes, places, parents, added, path);
      assert path[..0] == [];
      for k := 0 to |path|
        invariant Adding(nodes, places, parents, added, path, k, at) && added == old(added)
      {
        at := CountLevel(at, path, k);
      }
      AddingEnds(nodes, places, parents, added, path, at);
      added := added + [path];
    }

    /** One turn of the loop over the names of a path. */
    method CountLevel(at: nat, path: Path, k: nat) returns (child: nat)
      requires k < |path| && Adding(nodes, places, parents, added, path, k, at)
      modifies this`nodes, this`places, this`parents
      ensures Adding(nodes, places, parents, added, path, k + 1, child)
      ensures added == old(added)
    {
      ghost var before := places;
      NextPrefix(path, k);
      child := ChildOf(at, path[k], path, k);
      LevelCounted(before, nodes, places, parents, added, child, path, k);
      var after := nodes[child := nodes[child].(count := nodes[child].count + 1)];
      nodes := after;
    }
  }

  ghost predicate HasNode(places: seq<Path>, p: Path) {
    exists i :: 0 <= i < |places| && places[i] == p
  }

  /** Every prefix so far has its node, and `at` is the last of them. */
  ghost predicate Way(places: seq<Path>, path: Path, k: nat, at: nat)
    requires k <= |path|
  {
    && at < |places| && places[at] == path[..k]
    && forall m | 0 <= m <= k :: HasNode(places, path[..m])
  }

  /** What the loop of `addFolderPath` keeps. */
  ghost predicate Adding(nodes: seq<Node>, places: seq<Path>, parents: seq<nat>, added: seq<Path>, path: Path, k: nat, at: nat) {
    Growing(nodes, places, parents, added, path, k) && k <= |path| && Way(places, path, k, at)
  }

  lemma WayExtended(before: seq<Path>, places: seq<Path>, path: Path, k: nat, child: nat)
    requires before <= places && k < |path| && child < |places| && places[child] == path[..k + 1]
    requires forall m | 0 <= m <= k :: HasNode(before, path[..m])
    ensures Way(places, path, k + 1, child)
  {
    forall m | 0 <= m <= k ensures HasNode(places, path[..m]) {
      var i :| 0 <= i < |before| && before[i] == path[..m];
      assert places[i] == path[..m];
    }
  }

  lemma AddingStarts(nodes: seq<Node>, places: seq<Path>, parents: seq<nat>, added: seq<Path>, path: Path)
    requires Linked(nodes, places, parents) && Counts(nodes, places, added, [], 0) && InUse(places, added, [])
    ensures Counts(nodes, places, added, path, 0) && InUse(places, added, path)
  {
    forall i | 0 < i < |nodes| ensures places[i] != [] {
      assert HasParent(nodes, places, parents, i);
    }
  }

  lemma NextPrefix(path: Path, k: nat)
    requires k < |path|
    ensures path[..k + 1] == path[..k] + [path[k]]
  {
  }

  lemma LevelCounted(before: seq<Path>, nodes: seq<Node>, places: seq<Path>, parents: seq<nat>, added: seq<Path>, child: nat,
                     path: Path, k: nat)
    requires Growing(nodes, places, parents, added, path, k)
    requires before <= places && k < |path| && 0 < child < |nodes| && places[child] == path[..k + 1]
    requires forall m | 0 <= m <= k :: HasNode(before, path[..m])
    ensures Adding(nodes[child := nodes[child].(count := nodes[child].count + 1)], places, parents, added, path, k + 1, child)
  {
    WayExtended(before, places, path, k, child);
    LinksIgnoreCounts(nodes, places, parents, added, child);
    CountedOnce(nodes, places, parents, added, child, path, k);
  }

  lemma LinksIgnoreCounts(nodes: seq<Node>, places: seq<Path>, parents: seq<nat>, added: seq<Path>, at: nat)
    requires Linked(nodes, places, parents) && NoneMissing(nodes, places, added) && at < |nodes|
    ensures var after := nodes[at := nodes[at].(count := nodes[at].count + 1)];
            Linked(after, places, parents) && NoneMissing(after, places, added)
  {
    var after := nodes[at := nodes[at].(count := nodes[at].count + 1)];
    assert forall i | 0 <= i < |nodes| :: after[i].children == nodes[i].children;
    forall i, name | 0 <= i < |after| && name in after[i].children ensures IsChild(after, places, i, name) {
      assert IsChild(nodes, places, i, name);
    }
    forall j | 0 < j < |after| ensures HasParent(after, places, parents, j) {
      assert HasParent(nodes, places, parents, j);
    }
  }

  lemma CountedOnce(nodes: seq<Node>, places: seq<Path>, parents: seq<nat>, added: seq<Path>, at: nat, path: Path, k: nat)
    requires Linked(nodes, places, parents) && Counts(nodes, places, added, path, k)
    requires 0 < at < |nodes| && k < |path| && places[at] == path[..k + 1]
    ensures Counts(nodes[at := nodes[at].(count := nodes[at].count + 1)], places, added, path, k + 1)
  {
    forall i | 0 < i < |nodes| && i != at ensures !(|places[i]| == k + 1 && AtOrUnder(path, places[i])) {
      assert places[i] != places[at];
    }
  }

  lemma AddingEnds(nodes: seq<Node>, places: seq<Path>, parents: seq<nat>, added: seq<Path>, path: Path, at: nat)
    requires Adding(nodes, places, parents, added, path, |path|, at)
    ensures NoneMissing(nodes, places, added + [path]) && Counts(nodes, places, added + [path], [], 0)
    ensures InUse(places, added + [path], [])
  {
    forall i | 0 < i < |nodes|
      ensures places[i] != [] && nodes[i].count == PrefixCount(added + [path], places[i]) > 0
    {
      assert HasParent(nodes, places, parents, i);
      PrefixCountNext(added, path, places[i]);
    }
    forall i, name | 0 <= i < |nodes| && PrefixCount(added + [path], places[i] + [name]) > 0 ensures name in nodes[i].children {
      PrefixCountNext(added, path, places[i] + [name]);
      if PrefixCount(added, places[i] + [name]) == 0 {
        var m := |places[i]| + 1;
        assert HasNode(places, path[..m]);
        var j :| 0 <= j < |places| && places[j] == path[..m];
        ChildIsThere(nodes, places, parents, i, j, name);
      }
    }
  }

  lemma ChildIsThere(nodes: seq<Node>, places: seq<Path>, parents: seq<nat>, i: nat, j: nat, name: Name)
    requires Linked(nodes, places, parents) && i < |nodes| && j < |nodes| && places[j] == places[i] + [name]
    ensures name in nodes[i].children
  {
    assert HasParent(nodes, places, parents, j);
    assert Parent(places[j]) == places[i];
    assert parents[j] == i;
  }

  // ---- the finished tree

  /** The nodes are the root and the paths at or under which something was added. */
  lemma {:induction false} PlacesExactly(nodes: seq<Node>, places: seq<Path>, parents: seq<nat>, added: seq<Path>, p: Path)
    requires Linked(nodes, places, parents) && NoneMissing(nodes, places, added) && InUse(places, added, [])
    ensures HasNode(places, p) <==> p == [] || PrefixCount(added, p) > 0
    decreases |p|
  {
    if p == [] {
      assert places[0] == p;
    } else if PrefixCount(added, p) > 0 {
      var front, last := p[..|p| - 1], p[|p| - 1];
      assert p == front + [last];
      PrefixCountShrinks(added, front, last);
      PlacesExactly(nodes, places, parents, added, front);
      var i :| 0 <= i < |places| && places[i] == front;
      assert IsChild(nodes, places, i, last);
    }
  }

  lemma ChildrenExactly(nodes: seq<Node>, places: seq<Path>, parents: seq<nat>, i: nat, name: Name)
    requires Linked(nodes, places, parents) && i < |nodes|
    ensures name in nodes[i].children <==> HasNode(places, places[i] + [name])
  {
    if name in nodes[i].children {
      assert IsChild(nodes, places, i, name);
    }
    if HasNode(places, places[i] + [name]) {
      var j :| 0 <= j < |places| && places[j] == places[i] + [name];
      ChildIsThere(nodes, places, parents, i, j, name);
    }
  }

  /** Two nodes show the same: as many paths, and children of the same names. */
  ghost predicate Alike(a: Node, b: Node) {
    a.count == b.count && a.children.Keys == b.children.Keys
  }

  datatype Tree = Tree(name: Name, count: nat, children: seq<Tree>)

  /** A sort of the sibling names; which one does not matter here. */
  ghost predicate Sorts(order: (nat, set<Name>) -> seq<Name>) {
    forall i: nat, names: set<Name> ::
      && (forall name :: name in order(i, names) <==> name in names)
      && (forall x, y | 0 <= x < y < |order(i, names)| :: order(i, names)[x] != order(i, names)[y])
  }

  /** `finalizeFolderTree` at one node. */
  function Finalized(nodes: seq<Node>, order: (nat, set<Name>) -> seq<Name>, i: nat, name: Name): Tree
    requires i < |nodes| && Downward(nodes) && Sorts(order)
    decreases |nodes| - i, 1, 0
  {
    Tree(name, nodes[i].count, FinalizedAll(nodes, order, i, order(i, nodes[i].children.Keys)))
  }

  function FinalizedAll(nodes: seq<Node>, order: (nat, set<Name>) -> seq<Name>, i: nat, names: seq<Name>): (trees: seq<Tree>)
    requires i < |nodes| && Downward(nodes) && Sorts(order) && forall name | name in names :: name in nodes[i].children
    ensures |trees| == |names| && forall x | 0 <= x < |names| :: trees[x].name == names[x]
    decreases |nodes| - i, 0, |names|
  {
    if names == [] then []
    else [Finalized(nodes, order, nodes[i].children[names[0]], names[0])] + FinalizedAll(nodes, order, i, names[1..])
  }

  ghost predicate Downward(nodes: seq<Node>) {
    forall i, name | 0 <= i < |nodes| && name in nodes[i].children :: i < nodes[i].children[name] < |nodes|
  }

  /** The count that the finished tree shows at a path below `tree`, 0 if nothing is there. */
  function ShownAt(tree: Tree, path: Path): nat
    decreases |path|
  {
    if path == [] then tree.count else ShownAmong(tree.children, path)
  }

  function ShownAmong(trees: seq<Tree>, path: Path): nat
    requires path != []
    decreases |path|, |trees|
  {
    if trees == [] then 0
    else if trees[0].name == path[0] then ShownAt(trees[0], path[1..])
    else ShownAmong(trees[1..], path)
  }

  lemma {:induction false} ShownInOrder(nodes: seq<Node>, order: (nat, set<Name>) -> seq<Name>, i: nat, names: seq<Name>, path: Path)
    requires i < |nodes| && Downward(nodes) && Sorts(order) && path != []
    requires forall name | name in names :: name in nodes[i].children
    ensures ShownAmong(FinalizedAll(nodes, order, i, names), path)
         == if path[0] in names then ShownAt(Finalized(nodes, order, nodes[i].children[path[0]], path[0]), path[1..]) else 0
    decreases |names|
  {
    if names != [] {
      var trees := FinalizedAll(nodes, order, i, names);
      assert trees[0] == Finalized(nodes, order, nodes[i].children[names[0]], names[0]);
      assert trees[1..] == FinalizedAll(nodes, order, i, names[1..]);
      if names[0] != path[0] {
        ShownInOrder(nodes, order, i, names[1..], path);
      }
    }
  }

  lemma LinksGoDown(nodes: seq<Node>, places: seq<Path>, parents: seq<nat>)
    requires Linked(nodes, places, parents)
    ensures Downward(nodes)
  {
    forall i, name | 0 <= i < |nodes| && name in nodes[i].children ensures i < nodes[i].children[name] < |nodes| {
      assert IsChild(nodes, places, i, name);
    }
  }

  lemma {:induction false} NothingBelow(added: seq<Path>, p: Path, q: Path)
    requires PrefixCount(added, p) == 0
    ensures PrefixCount(added, p + q) == 0
    decreases |q|
  {
    if q == [] {
      assert p + q == p;
    } else {
      NothingBelow(added, p, q[..|q| - 1]);
      PrefixCountShrinks(added, p + q[..|q| - 1], q[|q| - 1]);
      assert p + q == p + q[..|q| - 1] + [q[|q| - 1]];
    }
  }

  /** The finished tree shows at every path, whatever the order of siblings, exactly how many
      of the added paths lie at or under it. */
  lemma {:induction false} TreeShowsCounts(nodes: seq<Node>, places: seq<Path>, parents: seq<nat>, added: seq<Path>,
                                           order: (nat, set<Name>) -> seq<Name>, i: nat, name: Name, path: Path)
    requires Linked(nodes, places, parents) && NoneMissing(nodes, places, added) && Counts(nodes, places, added, [], 0)
    requires Downward(nodes) && Sorts(order) && i < |nodes| && (i > 0 || path != [])
    ensures ShownAt(Finalized(nodes, order, i, name), path) == PrefixCount(added, places[i] + path)
    decreases |path|
  {
    if path == [] {
      assert places[i] + path == places[i];
      assert HasParent(nodes, places, parents, i);
    } else {
      ShownInOrder(nodes, order, i, order(i, nodes[i].children.Keys), path);
      FirstName(places[i], path);
      if path[0] in nodes[i].children {
        assert IsChild(nodes, places, i, path[0]);
        TreeShowsCounts(nodes, places, parents, added, order, nodes[i].children[path[0]], path[0], path[1..]);
      } else {
        NothingBelow(added, places[i] + [path[0]], path[1..]);
      }
    }
  }

  lemma FirstName(place: Path, path: Path)
    requires path != []
    ensures place + path == place + [path[0]] + path[1..]
  {
  }

  ghost predicate SameTrees(a: FolderTree, b: FolderTree)
    requires a.Valid() && b.Valid()
    reads a, b
  {
    && (forall p :: HasNode(a.places, p) <==> HasNode(b.places, p))
    && (forall i, j | 0 < i < |a.nodes| && 0 < j < |b.nodes| && a.places[i] == b.places[j] :: Alike(a.nodes[i], b.nodes[j]))
    && a.nodes[0].children.Keys == b.nodes[0].children.Keys
  }

  /** Whatever order the paths are added in, the trees have nodes at the same places, and those
      show the same. */
  lemma TreesAgree(a: FolderTree, b: FolderTree)
    requires a.Valid() && b.Valid() && multiset(a.added) == multiset(b.added)
    ensures SameTrees(a, b)
  {
    forall p ensures HasNode(a.places, p) <==> HasNode(b.places, p) {
      PlacesExactly(a.nodes, a.places, a.parents, a.added, p);
      PlacesExactly(b.nodes, b.places, b.parents, b.added, p);
      CountsIgnoreOrder(a.added, b.added, p);
    }
    forall i, j | 0 <= i < |a.nodes| && 0 <= j < |b.nodes| && a.places[i] == b.places[j]
      ensures a.nodes[i].children.Keys == b.nodes[j].children.Keys
    {
      ChildrenAgree(a.nodes, a.places, a.parents, i, b.nodes, b.places, b.parents, j);
    }
    forall i, j | 0 < i < |a.nodes| && 0 < j < |b.nodes| && a.places[i] == b.places[j]
      ensures a.nodes[i].count == b.nodes[j].count
    {
      CountsIgnoreOrder(a.added, b.added, a.places[i]);
    }
  }

  lemma ChildrenAgree(nodes: seq<Node>, places: seq<Path>, parents: seq<nat>, i: nat,
                      nodes': seq<Node>, places': seq<Path>, parents': seq<nat>, j: nat)
    requires Linked(nodes, places, parents) && Linked(nodes', places', parents') && i < |nodes| && j < |nodes'|
    requires places[i] == places'[j] && forall p :: HasNode(places, p) <==> HasNode(places', p)
    ensures nodes[i].children.Keys == nodes'[j].children.Keys
  {
    forall name ensures name in nodes[i].children <==> name in nodes'[j].children {
      ChildrenExactly(nodes, places, parents, i, name);
      ChildrenExactly(nodes', places', parents', j, name);
    }
  }

  // ---- sums

  function Total(trees: seq<Tree>): nat {
    if trees == [] then 0 else trees[0].count + Total(trees[1..])
  }

  function SumOver(names: seq<Name>, added: seq<Path>): nat {
    if names == [] then 0 else PrefixCount(added, [names[0]]) + SumOver(names[1..], added)
  }

  ghost predicate NoTwice(names: seq<Name>) {
    forall x, y | 0 <= x < y < |names| :: names[x] != names[y]
  }

  lemma {:induction false} SumOverNext(names: seq<Name>, added: seq<Path>, path: Path)
    requires path != [] && NoTwice(names)
    ensures SumOver(names, added + [path]) == SumOver(names, added) + (if path[0] in names then 1 else 0)
  {
    if names != [] {
      SumOverNext(names[1..], added, path);
      PrefixCountNext(added, path, [names[0]]);
      assert AtOrUnder(path, [names[0]]) <==> path[0] == names[0];
    }
  }

  /** Every added path lies under exactly one of the names. */
  lemma {:induction false} SumsToAll(names: seq<Name>, added: seq<Path>)
    requires NoTwice(names) && forall p | p in added :: p != [] && p[0] in names
    ensures SumOver(names, added) == |added|
  {
    if added == [] {
      NoSum(names);
    } else {
      var front, last := added[..|added| - 1], added[|added| - 1];
      assert added == front + [last];
      forall p | p in front ensures p != [] && p[0] in names {
        assert p in added;
      }
      assert last in added;
      SumsToAll(names, front);
      SumOverNext(names, front, last);
    }
  }

  lemma {:induction false} NoSum(names: seq<Name>)
    ensures SumOver(names, []) == 0
  {
    if names != [] {
      NoSum(names[1..]);
    }
  }

  lemma {:induction false} RootsTotal(nodes: seq<Node>, places: seq<Path>, parents: seq<nat>, added: seq<Path>,
                                      order: (nat, set<Name>) -> seq<Name>, names: seq<Name>)
    requires Linked(nodes, places, parents) && Counts(nodes, places, added, [], 0) && Downward(nodes) && Sorts(order)
    requires forall name | name in names :: name in nodes[0].children
    ensures Total(FinalizedAll(nodes, order, 0, names)) == SumOver(names, added)
  {
    if names != [] {
      assert names[0] in names && IsChild(nodes, places, 0, names[0]);
      RootsTotal(nodes, places, parents, added, order, names[1..]);
      var child := Finalized(nodes, order, nodes[0].children[names[0]], names[0]);
      assert FinalizedAll(nodes, order, 0, names) == [child] + FinalizedAll(nodes, order, 0, names[1..]);
      assert places[nodes[0].children[names[0]]] == [names[0]];
    }
  }

  lemma {:induction false} AddedIsCounted(added: seq<Path>, p: Path)
    requires p in added && p != []
    ensures PrefixCount(added, [p[0]]) > 0
  {
    var front, last := added[..|added| - 1], added[|added| - 1];
    assert added == front + [last];
    if p in front {
      AddedIsCounted(front, p);
    } else {
      assert AtOrUnder(p, [p[0]]);
    }
  }

  /** The counts that the roots of the finished tree show sum to the number of added paths. */
  lemma RootsSum(nodes: seq<Node>, places: seq<Path>, parents: seq<nat>, added: seq<Path>, order: (nat, set<Name>) -> seq<Name>)
    requires Linked(nodes, places, parents) && NoneMissing(nodes, places, added) && Counts(nodes, places, added, [], 0)
    requires Downward(nodes) && Sorts(order) && forall p | p in added :: p != []
    ensures Total(Finalized(nodes, order, 0, "").children) == |added|
  {
    var names := order(0, nodes[0].children.Keys);
    RootsTotal(nodes, places, parents, added, order, names);
    forall p | p in added ensures p[0] in names {
      AddedIsCounted(added, p);
      assert places[0] + [p[0]] == [p[0]];
    }
    SumsToAll(names, added);
  }

  /** However siblings are sorted, the roots show this many files in all. */
  ghost predicate RootsShow(nodes: seq<Node>, total: nat) {
    && nodes != [] && Downward(nodes)
    && forall order: (nat, set<Name>) -> seq<Name> | Sorts(order) :: Total(Finalized(nodes, order, 0, "").children) == total
  }

  // ---- the summary

  function CountablePaths(operations: seq<Operation>): seq<Path> {
    if operations == [] then []
    else
      var last := operations[|operations| - 1];
      CountablePaths(operations[..|operations| - 1]) + (if Countable(last) then [FolderPath(last)] else [])
  }

  function InCategory(operations: seq<Operation>, category: Category): nat {
    if operations == [] then 0
    else
      var last := operations[|operations| - 1];
      InCategory(operations[..|operations| - 1], category)
      + Hits(last, category)
  }

  function Hits(operation: Operation, category: Category): nat {
    if Countable(operation) && CategoryOf(operation) == Some(category) then 1 else 0
  }

  lemma {:induction false} CountableAreNamed(operations: seq<Operation>)
    ensures forall p | p in CountablePaths(operations) :: p != []
  {
    if operations != [] {
      CountableAreNamed(operations[..|operations| - 1]);
    }
  }

  /** What one operation adds to the paths. */
  function PathsOf(operation: Operation): seq<Path> {
    if Countable(operation) then [FolderPath(operation)] else []
  }

  lemma PathsNext(operations: seq<Operation>, last: Operation)
    ensures CountablePaths(operations + [last]) == CountablePaths(operations) + PathsOf(last)
    ensures forall c :: InCategory(operations + [last], c)
                     == InCategory(operations, c) + Hits(last, c)
  {
    assert (operations + [last])[..|operations|] == operations;
  }

  lemma {:induction false} PathsRemoved(operations: seq<Operation>, i: nat)
    requires i < |operations|
    ensures multiset(CountablePaths(operations)) == multiset(CountablePaths(Without(operations, i))) + multiset(PathsOf(operations[i]))
    decreases |operations|
  {
    var n := |operations| - 1;
    var front, last := operations[..n], operations[n];
    assert operations == front + [last];
    PathsNext(front, last);
    if i == n {
      assert Without(operations, i) == front;
    } else {
      PathsRemoved(front, i);
      WithoutBeforeLast(operations, i);
      PathsNext(Without(front, i), last);
    }
  }

  lemma {:induction false} CategoryRemoved(operations: seq<Operation>, i: nat, c: Category)
    requires i < |operations|
    ensures InCategory(operations, c) == InCategory(Without(operations, i), c) + Hits(operations[i], c)
    decreases |operations|
  {
    var n := |operations| - 1;
    var front, last := operations[..n], operations[n];
    assert operations == front + [last];
    PathsNext(front, last);
    if i == n {
      assert Without(operations, i) == front;
    } else {
      CategoryRemoved(front, i, c);
      WithoutBeforeLast(operations, i);
      PathsNext(Without(front, i), last);
    }
  }

  /** The same operations in another order give the same paths. */
  lemma {:induction false} PathsForgetOrder(a: seq<Operation>, b: seq<Operation>)
    requires multiset(a) == multiset(b)
    ensures multiset(CountablePaths(a)) == multiset(CountablePaths(b))
    decreases |a|
  {
    assert |multiset(a)| == |a| && |multiset(b)| == |b|;
    if a != [] {
      var i := TakeLast(a, b);
      PathsForgetOrder(a[..|a| - 1], Without(b, i));
      PathsRemoved(a, |a| - 1);
      assert Without(a, |a| - 1) == a[..|a| - 1];
      PathsRemoved(b, i);
    }
  }

  /** And the same number in each category. */
  lemma {:induction false} CategoryForgetsOrder(a: seq<Operation>, b: seq<Operation>, c: Category)
    requires multiset(a) == multiset(b)
    ensures InCategory(a, c) == InCategory(b, c)
    decreases |a|
  {
    assert |multiset(a)| == |a| && |multiset(b)| == |b|;
    if a != [] {
      var i := TakeLast(a, b);
      CategoryForgetsOrder(a[..|a| - 1], Without(b, i), c);
      CategoryRemoved(a, |a| - 1, c);
      assert Without(a, |a| - 1) == a[..|a| - 1];
      CategoryRemoved(b, i, c);
    }
  }

  class Summary {
    const tree: FolderTree
    var filesToOrganize: nat
    var counts: map<Category, nat>

    ghost predicate Sound(operations: seq<Operation>)
      reads this, tree
    {
      && tree.Valid() && tree.added == CountablePaths(operations) && filesToOrganize == |tree.added|
      && (forall c: Category :: c in counts && counts[c] == InCategory(operations, c))
    }

    constructor ()
      ensures Sound([]) && fresh(tree)
    {
      tree := new FolderTree();
      filesToOrganize := 0;
      counts := map[Documents := 0, Images := 0, Videos := 0, Archives := 0, Installers := 0, ToReview := 0];
      new;
      forall c: Category ensures c in counts && counts[c] == 0 {
        match c
        case Documents =>
        case Images =>
        case Videos =>
        case Archives =>
        case Installers =>
        case ToReview =>
      }
    }

    lemma RootsAddUp(operations: seq<Operation>)
      requires Sound(operations)
      ensures RootsShow(tree.nodes, filesToOrganize)
    {
      LinksGoDown(tree.nodes, tree.places, tree.parents);
      CountableAreNamed(operations);
      forall order: (nat, set<Name>) -> seq<Name> | Sorts(order)
        ensures Total(Finalized(tree.nodes, order, 0, "").children) == filesToOrganize
      {
        RootsSum(tree.nodes, tree.places, tree.parents, tree.added, order);
      }
    }

    /** One operation of `summarizeProposals`. */
    method Add(operation: Operation, ghost before: seq<Operation>)
      requires Sound(before)
      modifies this`filesToOrganize, this`counts, tree
      ensures Sound(before + [operation])
    {
      assert (before + [operation])[..|before|] == before;
      if Countable(operation) {
        filesToOrganize := filesToOrganize + 1;
        var category := CategoryOf(operation).value;
        counts := counts[category := counts[category] + 1];
        tree.AddFolderPath(FolderPath(operation));
      }
    }
  }

  /** `summarizeProposals`: what the roots of its tree show adds up to the files it counts. */
  method Summarize(operations: seq<Operation>) returns (summary: Summary)
    ensures fresh(summary) && summary.Sound(operations) && RootsShow(summary.tree.nodes, summary.filesToOrganize)
  {
    summary := new Summary();
    assert operations[..0] == [];
    for i := 0 to |operations|
      invariant fresh(summary) && fresh(summary.tree) && summary.Sound(operations[..i])
    {
      summary.Add(operations[i], operations[..i]);
      assert operations[..i + 1] == operations[..i] + [operations[i]];
    }
    assert operations[..|operations|] == operations;
    summary.RootsAddUp(operations);
  }

  /** Two summaries of the same operations, in any order: the same totals, the same categories,
      and trees with the same nodes. */
  lemma SummariesAgree(a: Summary, b: Summary, operations: seq<Operation>, others: seq<Operation>)
    requires a.Sound(operations) && b.Sound(others) && multiset(operations) == multiset(others)
    ensures a.filesToOrganize == b.filesToOrganize && forall c :: c in a.counts && c in b.counts && a.counts[c] == b.counts[c]
    ensures SameTrees(a.tree, b.tree)
  {
    PathsForgetOrder(operations, others);
    forall c: Category ensures InCategory(operations, c) == InCategory(others, c) {
      CategoryForgetsOrder(operations, others, c);
    }
    var x, y := multiset(a.tree.added), multiset(b.tree.added);
    assert |x| == |a.tree.added| && |y| == |b.tree.added|;
    TreesAgree(a.tree, b.tree);
  }

  /** Every countable operation is in exactly one category. */
  lemma {:induction false} CategoriesSum(operations: seq<Operation>)
    ensures InCategory(operations, Documents) + InCategory(operations, Images) + InCategory(operations, Videos)
          + InCategory(operations, Archives) + InCategory(operations, Installers) + InCategory(operations, ToReview)
         == |CountablePaths(operations)|
  {
    if operations != [] {
      CategoriesSum(operations[..|operations| - 1]);
    }
  }
}
