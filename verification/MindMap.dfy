/** The mind map of a proposal: its tree of nodes, and the ancestors of a selection. */
module MindMap {
  import opened Paths
  import opened FileTree

  // ---- ancestors

  /** The parent of a node, if the node is known and has one. */
  function ParentOf(parents: map<nat, Option<nat>>, id: nat): Option<nat> {
    if id in parents then parents[id] else None
  }

  predicate ParentIn(parents: map<nat, Option<nat>>, ids: set<nat>, id: nat) {
    ParentOf(parents, id).Some? ==> ParentOf(parents, id).value in ids
  }

  ghost predicate ClosedUnderParent(parents: map<nat, Option<nat>>, ids: set<nat>) {
    forall id | id in ids :: ParentIn(parents, ids, id)
  }

  function AllParents(parents: map<nat, Option<nat>>): set<nat> {
    set id | id in parents && parents[id].Some? :: parents[id].value
  }

  /** What both loops keep: only the ids still to do, and the one at hand, may lack their
      parent, and nothing superfluous is included. */
  ghost predicate Including(parents: map<nat, Option<nat>>, matches: set<nat>, included: set<nat>, open: set<nat>) {
    && matches <= included
    && (forall id | id in included && id !in open :: ParentIn(parents, included, id))
    && (forall closed | matches <= closed && ClosedUnderParent(parents, closed) :: included <= closed)
  }

  lemma IncludeParent(parents: map<nat, Option<nat>>, matches: set<nat>, included: set<nat>, open: set<nat>, id: nat)
    requires Including(parents, matches, included, open + {id}) && id in included && ParentOf(parents, id).Some?
    ensures var parent := ParentOf(parents, id).value;
            Including(parents, matches, included + {parent}, open + {parent})
  {
    var parent := ParentOf(parents, id).value;
    forall closed | matches <= closed && ClosedUnderParent(parents, closed) ensures included + {parent} <= closed {
      assert included <= closed;
      assert ParentIn(parents, closed, id);
    }
  }

  /** The inner loop: climb from one match until there is no parent or it was visited. */
  method IncludeChain(parents: map<nat, Option<nat>>, ghost matches: set<nat>, included: set<nat>, ghost open: set<nat>, id: nat)
    returns (after: set<nat>)
    requires id in included && Including(parents, matches, included, open + {id})
    ensures included <= after && Including(parents, matches, after, open)
  {
    after := included;
    var current := id;
    var visited: set<nat> := {};
    while ParentOf(parents, current).Some? && ParentOf(parents, current).value !in visited
      invariant included <= after && visited <= after && current in after && visited <= AllParents(parents)
      invariant Including(parents, matches, after, open + {current})
      decreases AllParents(parents) - visited
    {
      var parent := ParentOf(parents, current).value;
      assert parent in AllParents(parents);
      IncludeParent(parents, matches, after, open, current);
      visited, after, current := visited + {parent}, after + {parent}, parent;
    }
  }

  /** `includeAncestors`: the least set that contains the matches and is closed under parent,
      whatever cycles the parent links have. */
  method IncludeAncestors(matches: set<nat>, parents: map<nat, Option<nat>>) returns (included: set<nat>)
    ensures matches <= included && ClosedUnderParent(parents, included)
    ensures forall closed | matches <= closed && ClosedUnderParent(parents, closed) :: included <= closed
  {
    included := matches;
    var todo := matches;
    while todo != {}
      invariant todo <= matches && Including(parents, matches, included, todo)
      decreases todo
    {
      var id :| id in todo;
      todo := todo - {id};
      assert todo + {id} == todo + {id};
      included := IncludeChain(parents, matches, included, todo, id);
    }
  }

  // ---- the nodes

  /** Given ids never have the form of the ids that the map makes up. */
  datatype Id = Given(id: nat) | MadeRoot | MadeFolder(path: string) | MadeFile(operation: nat)

  datatype NodeKind = RootNode | FolderNode | FileNode

  datatype Node = Node(id: Id, parent: Option<Id>, kind: NodeKind, name: Name, path: string, operation: Option<nat>, childCount: nat)

  datatype Operation = Operation(id: nat, destination: Path, name: Name, path: string)

  const MADE_ROOT := Node(MadeRoot, None, RootNode, "Proposition", "", None, 0)

  ghost predicate UniqueIds(nodes: seq<Node>) {
    forall i, j | 0 <= i < j < |nodes| :: nodes[i].id != nodes[j].id
  }

  predicate HasId(nodes: seq<Node>, id: Id) {
    exists n | n in nodes :: n.id == id
  }

  /** Every parent is a node, of lesser depth: the links form a forest. */
  ghost predicate Forest(nodes: seq<Node>, depth: map<Id, nat>) {
    UniqueIds(nodes) && forall n | n in nodes :: Placed(nodes, depth, n)
  }

  ghost predicate Placed(nodes: seq<Node>, depth: map<Id, nat>, n: Node) {
    n.id in depth && (n.parent.Some? ==> HasId(nodes, n.parent.value) && n.parent.value in depth && depth[n.parent.value] < depth[n.id])
  }

  lemma LeafAdded(nodes: seq<Node>, depth: map<Id, nat>, leaf: Node)
    requires Forest(nodes, depth) && !HasId(nodes, leaf.id) && leaf.parent.Some? && HasId(nodes, leaf.parent.value)
    ensures Forest(nodes + [leaf], depth[leaf.id := depth[leaf.parent.value] + 1])
  {
    var after, deeper := nodes + [leaf], depth[leaf.id := depth[leaf.parent.value] + 1];
    var parent :| parent in nodes && parent.id == leaf.parent.value;
    assert parent in after;
    forall n | n in after ensures Placed(after, deeper, n) {
      if n in nodes {
        assert Placed(nodes, depth, n);
        if n.parent.Some? {
          var p :| p in nodes && p.id == n.parent.value;
          assert p in after;
        }
      }
    }
  }

  /** The chain of parents of `id` spells these names, from the root down. */
  ghost predicate Spells(nodes: seq<Node>, id: Id, names: Path)
    decreases |names|
  {
    exists n :: n in nodes && n.id == id && SpelledBy(nodes, n, names)
  }

  ghost predicate SpelledBy(nodes: seq<Node>, n: Node, names: Path)
    decreases |names|, 0
  {
    if names == [] then n.kind == RootNode
    else
      n.kind == FolderNode && n.name == names[|names| - 1] && n.parent.Some? && Spells(nodes, n.parent.value, names[..|names| - 1])
  }

  lemma {:induction false} SpellsStays(nodes: seq<Node>, more: seq<Node>, id: Id, names: Path)
    requires Spells(nodes, id, names) && forall n | n in nodes :: n in more
    ensures Spells(more, id, names)
    decreases |names|
  {
    var n :| n in nodes && n.id == id && SpelledBy(nodes, n, names);
    if names != [] {
      SpellsStays(nodes, more, n.parent.value, names[..|names| - 1]);
    }
    assert SpelledBy(more, n, names);
  }

  /** Names that the text of a path can carry. */
  predicate Plain(names: Path) {
    forall i | 0 <= i < |names| :: names[i] != "" && '/' !in names[i]
  }

  function TextOf(names: Path): string {
    Join(names)
  }

  /** `path ? path + "/" + segment : segment`. */
  function NextText(text: string, segment: Name): string {
    if text == "" then segment else text + ("/" + segment)
  }

  lemma {:induction false} TextGrows(names: Path, segment: Name)
    requires Plain(names)
    ensures NextText(TextOf(names), segment) == TextOf(names + [segment])
    ensures names != [] ==> TextOf(names) != ""
  {
    if |names| > 1 {
      TextGrows(names[1..], segment);
      assert (names + [segment])[1..] == names[1..] + [segment];
      Regroup(names[0], "/" + Join(names[1..]), "/" + segment);
      Regroup("/", Join(names[1..]), "/" + segment);
    } else if |names| == 1 {
      assert (names + [segment])[1..] == [segment] && (names + [segment])[0] == names[0];
      assert Join([segment]) == segment;
    }
  }

  lemma SameTextSameNames(a: Path, b: Path)
    requires Plain(a) && Plain(b) && a != [] && b != [] && TextOf(a) == TextOf(b)
    ensures a == b
  {
    JoinIsInjective(a, b);
  }

  /** Every folder sits where its path text says. */
  ghost predicate FoldersSpelled(nodes: seq<Node>, folders: map<string, Id>) {
    forall names | Plain(names) && names != [] && TextOf(names) in folders :: Spells(nodes, folders[TextOf(names)], names)
  }

  ghost predicate FoldersThere(nodes: seq<Node>, folders: map<string, Id>) {
    && (forall text | text in folders :: HasId(nodes, folders[text]))
    && (forall text | HasId(nodes, MadeFolder(text)) :: text in folders)
  }

  function NodesFor(nodes: seq<Node>, operation: nat): nat {
    if nodes == [] then 0
    else NodesFor(nodes[..|nodes| - 1], operation) + (if nodes[|nodes| - 1].operation == Some(operation) then 1 else 0)
  }

  lemma NodesForNext(nodes: seq<Node>, n: Node, operation: nat)
    ensures NodesFor(nodes + [n], operation) == NodesFor(nodes, operation) + (if n.operation == Some(operation) then 1 else 0)
  {
    assert (nodes + [n])[..|nodes|] == nodes;
  }

  lemma {:induction false} NodesForNone(nodes: seq<Node>, operation: nat)
    ensures NodesFor(nodes, operation) == 0 <==> forall n | n in nodes :: n.operation != Some(operation)
  {
    if nodes != [] {
      var front, last := nodes[..|nodes| - 1], nodes[|nodes| - 1];
      assert nodes == front + [last];
      NodesForNone(front, operation);
    }
  }

  // ---- building

  /** What building keeps: the forest, the folders, and, as long as only plain destinations
      were seen, that folders sit where their path says. */
  ghost predicate Building(nodes: seq<Node>, depth: map<Id, nat>, folders: map<string, Id>, root: Id, plain: bool) {
    && Forest(nodes, depth) && FoldersThere(nodes, folders)
    && Spells(nodes, root, []) && (plain ==> FoldersSpelled(nodes, folders))
  }

  lemma FolderMade(nodes: seq<Node>, depth: map<Id, nat>, folders: map<string, Id>, root: Id, plain: bool,
                   parent: Id, names: Path, segment: Name, text: string, folder: Node)
    requires Building(nodes, depth, folders, root, plain) && HasId(nodes, parent) && text !in folders
    requires folder == Node(MadeFolder(text), Some(parent), FolderNode, segment, text, None, 0)
    requires plain ==> Plain(names + [segment]) && text == TextOf(names + [segment]) && Spells(nodes, parent, names)
    ensures Building(nodes + [folder], depth[folder.id := depth[parent] + 1], folders[text := folder.id], root, plain)
    ensures plain ==> Spells(nodes + [folder], folder.id, names + [segment])
  {
    LeafAdded(nodes, depth, folder);
    FoldersStillThere(nodes, folders, folder, text);
    SpellsStays(nodes, nodes + [folder], root, []);
    if plain {
      NewFolderSpelled(nodes, parent, names, segment, folder);
      FoldersSpelledNext(nodes, folders, names + [segment], folder);
    }
  }

  lemma FoldersStillThere(nodes: seq<Node>, folders: map<string, Id>, folder: Node, text: string)
    requires FoldersThere(nodes, folders) && folder.id == MadeFolder(text)
    ensures FoldersThere(nodes + [folder], folders[text := folder.id])
  {
    var after := nodes + [folder];
    assert folder in after;
    forall t | t in folders ensures HasId(after, folders[t]) {
      var n :| n in nodes && n.id == folders[t];
      assert n in after;
    }
    forall t | HasId(after, MadeFolder(t)) ensures t in folders[text := folder.id] {
      var n :| n in after && n.id == MadeFolder(t);
      assert n in nodes ==> HasId(nodes, MadeFolder(t));
    }
  }

  lemma NewFolderSpelled(nodes: seq<Node>, parent: Id, names: Path, segment: Name, folder: Node)
    requires Spells(nodes, parent, names) && folder.parent == Some(parent) && folder.kind == FolderNode && folder.name == segment
    ensures Spells(nodes + [folder], folder.id, names + [segment])
  {
    var longer := names + [segment];
    assert longer[..|names|] == names;
    SpellsStays(nodes, nodes + [folder], parent, names);
    assert SpelledBy(nodes + [folder], folder, longer);
  }

  lemma FoldersSpelledNext(nodes: seq<Node>, folders: map<string, Id>, names: Path, folder: Node)
    requires FoldersSpelled(nodes, folders) && Plain(names) && names != []
    requires Spells(nodes + [folder], folder.id, names)
    ensures FoldersSpelled(nodes + [folder], folders[TextOf(names) := folder.id])
  {
    forall other | Plain(other) && other != [] && TextOf(other) in folders[TextOf(names) := folder.id]
      ensures Spells(nodes + [folder], folders[TextOf(names) := folder.id][TextOf(other)], other)
    {
      if TextOf(other) == TextOf(names) {
        SameTextSameNames(other, names);
      } else {
        SpellsStays(nodes, nodes + [folder], folders[TextOf(other)], other);
      }
    }
  }

  lemma FileMade(nodes: seq<Node>, depth: map<Id, nat>, folders: map<string, Id>, root: Id, plain: bool, file: Node)
    requires Building(nodes, depth, folders, root, plain)
    requires file.parent.Some? && HasId(nodes, file.parent.value) && file.id.MadeFile? && !HasId(nodes, file.id)
    ensures Building(nodes + [file], depth[file.id := depth[file.parent.value] + 1], folders, root, plain)
  {
    var after := nodes + [file];
    LeafAdded(nodes, depth, file);
    SpellsStays(nodes, after, root, []);
    forall t | t in folders ensures HasId(after, folders[t]) {
      var n :| n in nodes && n.id == folders[t];
      assert n in after;
    }
    forall t | HasId(after, MadeFolder(t)) ensures t in folders {
      var n :| n in after && n.id == MadeFolder(t);
      assert n in nodes;
    }
    if plain {
      forall names | Plain(names) && names != [] && TextOf(names) in folders ensures Spells(after, folders[TextOf(names)], names) {
        SpellsStays(nodes, after, folders[TextOf(names)], names);
      }
    }
  }

  ghost predicate OnlyFolders(before: seq<Node>, after: seq<Node>) {
    before <= after && forall k | |before| <= k < |after| :: after[k].id.MadeFolder? && after[k].operation.None?
  }

  /** One level of a destination: the folder is reused, or made. */
  method NextFolder(nodes: seq<Node>, folders: map<string, Id>, ghost root: Id, parent: Id, segment: Name, text: string,
                    ghost depth: map<Id, nat>, ghost plain: bool, ghost names: Path)
    returns (after: seq<Node>, nowFolders: map<string, Id>, child: Id, ghost deeper: map<Id, nat>)
    requires Building(nodes, depth, folders, root, plain) && HasId(nodes, parent)
    requires plain ==> Plain(names + [segment]) && text == TextOf(names + [segment]) && Spells(nodes, parent, names)
    ensures Building(after, deeper, nowFolders, root, plain) && HasId(after, child) && OnlyFolders(nodes, after)
    ensures plain ==> Spells(after, child, names + [segment])
  {
    after, nowFolders, deeper := nodes, folders, depth;
    if text !in folders {
      var folder := Node(MadeFolder(text), Some(parent), FolderNode, segment, text, None, 0);
      FolderMade(nodes, depth, folders, root, plain, parent, names, segment, text, folder);
      deeper := depth[folder.id := depth[parent] + 1];
      after, nowFolders := nodes + [folder], folders[text := folder.id];
    }
    child := nowFolders[text];
  }

  /** Where the loop over the segments stands after `k` of them. */
  ghost predicate AtLevel(nodes: seq<Node>, parent: Id, destination: Path, k: nat, text: string, plain: bool)
    requires k <= |destination|
  {
    HasId(nodes, parent) && (plain ==> Spells(nodes, parent, destination[..k]) && text == TextOf(destination[..k]))
  }

  /** One turn of the loop over the segments. */
  method NextLevel(nodes: seq<Node>, folders: map<string, Id>, ghost root: Id, parent: Id, destination: Path, k: nat, text: string,
                   ghost depth: map<Id, nat>, ghost plain: bool)
    returns (after: seq<Node>, nowFolders: map<string, Id>, child: Id, now: string, ghost deeper: map<Id, nat>)
    requires k < |destination| && (plain ==> Plain(destination))
    requires Building(nodes, depth, folders, root, plain) && AtLevel(nodes, parent, destination, k, text, plain)
    ensures Building(after, deeper, nowFolders, root, plain) && OnlyFolders(nodes, after)
    ensures AtLevel(after, child, destination, k + 1, now, plain)
  {
    NextNames(destination, k, plain);
    now := NextText(text, destination[k]);
    after, nowFolders, child, deeper := NextFolder(nodes, folders, root, parent, destination[k], now, depth, plain, destination[..k]);
  }

  /** The folders of one destination. */
  method FolderFor(nodes: seq<Node>, folders: map<string, Id>, root: Id, destination: Path, ghost depth: map<Id, nat>, ghost plain: bool)
    returns (after: seq<Node>, nowFolders: map<string, Id>, parent: Id, ghost deeper: map<Id, nat>)
    requires Building(nodes, depth, folders, root, plain) && (plain ==> Plain(destination))
    ensures Building(after, deeper, nowFolders, root, plain) && HasId(after, parent) && OnlyFolders(nodes, after)
    ensures plain ==> Spells(after, parent, destination)
  {
    after, nowFolders, parent, deeper := nodes, folders, root, depth;
    var text := "";
    assert destination[..0] == [];
    for k := 0 to |destination|
      invariant Building(after, deeper, nowFolders, root, plain) && OnlyFolders(nodes, after)
      invariant AtLevel(after, parent, destination, k, text, plain)
    {
      ghost var before := after;
      after, nowFolders, parent, text, deeper :=
        NextLevel(after, nowFolders, root, parent, destination, k, text, deeper, plain);
      FoldersTogether(nodes, before, after);
    }
    assert destination[..|destination|] == destination;
  }

  lemma NextNames(destination: Path, k: nat, plain: bool)
    requires k < |destination| && (plain ==> Plain(destination))
    ensures destination[..k + 1] == destination[..k] + [destination[k]]
    ensures plain ==> Plain(destination[..k + 1])
    ensures plain ==> NextText(TextOf(destination[..k]), destination[k]) == TextOf(destination[..k + 1])
  {
    if plain {
      TextGrows(destination[..k], destination[k]);
    }
  }

  lemma FoldersTogether(a: seq<Node>, b: seq<Node>, c: seq<Node>)
    requires OnlyFolders(a, b) && OnlyFolders(b, c)
    ensures OnlyFolders(a, c)
  {
    assert forall k | |a| <= k < |b| :: c[k] == b[k];
  }

  /** The file node of an operation, under a chain of folders that spells its destination. */
  ghost predicate FileFor(nodes: seq<Node>, operation: Operation) {
    exists n :: n in nodes && n.id == MadeFile(operation.id) && n.operation == Some(operation.id) && n.kind == FileNode
      && n.name == operation.name && n.path == operation.path && n.parent.Some?
      && Spells(nodes, n.parent.value, operation.destination)
  }

  lemma FileForStays(nodes: seq<Node>, more: seq<Node>, operation: Operation)
    requires FileFor(nodes, operation) && forall n | n in nodes :: n in more
    ensures FileFor(more, operation)
  {
    var n :| n in nodes && n.id == MadeFile(operation.id) && n.operation == Some(operation.id) && n.kind == FileNode
      && n.name == operation.name && n.path == operation.path && n.parent.Some?
      && Spells(nodes, n.parent.value, operation.destination);
    SpellsStays(nodes, more, n.parent.value, operation.destination);
  }

  ghost predicate FilesFrom(nodes: seq<Node>, done: set<nat>) {
    forall o | HasId(nodes, MadeFile(o)) :: o in done
  }

  lemma {:induction false} FoldersCountNothing(nodes: seq<Node>, after: seq<Node>, o: nat)
    requires OnlyFolders(nodes, after)
    ensures NodesFor(after, o) == NodesFor(nodes, o)
    decreases |after|
  {
    if |nodes| < |after| {
      var front, last := after[..|after| - 1], after[|after| - 1];
      assert forall k | 0 <= k < |front| :: front[k] == after[k];
      assert after == front + [last];
      FoldersCountNothing(nodes, front, o);
    } else {
      assert after == nodes;
    }
  }

  lemma FoldersMakeNoFiles(nodes: seq<Node>, after: seq<Node>, done: set<nat>)
    requires OnlyFolders(nodes, after) && FilesFrom(nodes, done)
    ensures FilesFrom(after, done)
  {
    forall o | HasId(after, MadeFile(o)) ensures o in done {
      var n :| n in after && n.id == MadeFile(o);
      var i :| 0 <= i < |after| && after[i] == n;
      assert nodes[i] == n;
      assert HasId(nodes, MadeFile(o));
    }
  }

  /** One operation without a node: its folders, then its file. */
  method AddOperation(nodes: seq<Node>, folders: map<string, Id>, root: Id, operation: Operation, ghost depth: map<Id, nat>,
                      ghost plain: bool, ghost done: set<nat>)
    returns (after: seq<Node>, nowFolders: map<string, Id>, ghost deeper: map<Id, nat>)
    requires Building(nodes, depth, folders, root, plain) && (plain ==> Plain(operation.destination))
    requires FilesFrom(nodes, done) && operation.id !in done
    ensures Building(after, deeper, nowFolders, root, plain) && FilesFrom(after, done + {operation.id}) && nodes <= after
    ensures forall o :: NodesFor(after, o) == NodesFor(nodes, o) + (if o == operation.id then 1 else 0)
    ensures plain ==> FileFor(after, operation)
  {
    var parent;
    after, nowFolders, parent, deeper := FolderFor(nodes, folders, root, operation.destination, depth, plain);
    after, deeper := AddFile(after, nowFolders, root, parent, operation, deeper, plain, done, nodes);
  }

  /** The node of the operation itself, once its folders are there. */
  method AddFile(nodes: seq<Node>, ghost folders: map<string, Id>, ghost root: Id, parent: Id, operation: Operation,
                 ghost depth: map<Id, nat>, ghost plain: bool, ghost done: set<nat>, ghost start: seq<Node>)
    returns (after: seq<Node>, ghost deeper: map<Id, nat>)
    requires Building(nodes, depth, folders, root, plain) && OnlyFolders(start, nodes) && HasId(nodes, parent)
    requires FilesFrom(start, done) && operation.id !in done && (plain ==> Spells(nodes, parent, operation.destination))
    ensures Building(after, deeper, folders, root, plain) && FilesFrom(after, done + {operation.id}) && start <= after
    ensures forall o :: NodesFor(after, o) == NodesFor(start, o) + (if o == operation.id then 1 else 0)
    ensures plain ==> FileFor(after, operation)
  {
    var file := Node(MadeFile(operation.id), Some(parent), FileNode, operation.name, operation.path, Some(operation.id), 0);
    OperationMade(start, nodes, folders, root, operation, depth, plain, done, file);
    after, deeper := nodes + [file], depth[file.id := depth[parent] + 1];
  }

  lemma OperationMade(nodes: seq<Node>, after: seq<Node>, folders: map<string, Id>, root: Id, operation: Operation,
                      depth: map<Id, nat>, plain: bool, done: set<nat>, file: Node)
    requires Building(after, depth, folders, root, plain) && OnlyFolders(nodes, after)
    requires FilesFrom(nodes, done) && operation.id !in done && file.parent.Some? && HasId(after, file.parent.value)
    requires file == Node(MadeFile(operation.id), file.parent, FileNode, operation.name, operation.path, Some(operation.id), 0)
    requires plain ==> Spells(after, file.parent.value, operation.destination)
    ensures file.parent.value in depth && nodes <= after + [file]
    ensures Building(after + [file], depth[file.id := depth[file.parent.value] + 1], folders, root, plain)
    ensures FilesFrom(after + [file], done + {operation.id})
    ensures forall o :: NodesFor(after + [file], o) == NodesFor(nodes, o) + (if o == operation.id then 1 else 0)
    ensures plain ==> FileFor(after + [file], operation)
  {
    FoldersMakeNoFiles(nodes, after, done);
    FileMade(after, depth, folders, root, plain, file);
    FileAdded(nodes, after, operation, file, done);
    if plain {
      SpellsStays(after, after + [file], file.parent.value, operation.destination);
      assert file in after + [file];
    }
  }

  lemma FileAdded(nodes: seq<Node>, after: seq<Node>, operation: Operation, file: Node, done: set<nat>)
    requires OnlyFolders(nodes, after) && FilesFrom(after, done)
    requires file.id == MadeFile(operation.id) && file.operation == Some(operation.id)
    ensures FilesFrom(after + [file], done + {operation.id})
    ensures forall o :: NodesFor(after + [file], o) == NodesFor(nodes, o) + (if o == operation.id then 1 else 0)
  {
    forall o ensures NodesFor(after + [file], o) == NodesFor(nodes, o) + (if o == operation.id then 1 else 0) {
      FoldersCountNothing(nodes, after, o);
      NodesForNext(after, file, o);
    }
    forall o | HasId(after + [file], MadeFile(o)) ensures o in done + {operation.id} {
      var n :| n in after + [file] && n.id == MadeFile(o);
      if n in after {
        assert HasId(after, MadeFile(o));
      }
    }
  }

  // ---- the whole map

  /** The given nodes, with a root. */
  function StartOf(given: seq<Node>): seq<Node> {
    if exists n | n in given :: n.kind == RootNode then given else [MADE_ROOT] + given
  }

  /** What a stored proposal supplies: a forest under its own ids, its folders where their
      paths say, and at most one node for an operation. */
  ghost predicate GivenSound(given: seq<Node>, depth: map<Id, nat>) {
    && Forest(given, depth) && (forall n | n in given :: n.id.Given?)
    && (forall n, names | n in given && n.kind == FolderNode && Plain(names) && names != [] && TextOf(names) == n.path ::
          Spells(StartOf(given), n.id, names))
    && forall o :: NodesFor(given, o) <= 1
  }

  ghost predicate DistinctOperations(operations: seq<Operation>) {
    forall i, j | 0 <= i < j < |operations| :: operations[i].id != operations[j].id
  }

  lemma {:induction false} RootCountsNothing(given: seq<Node>, o: nat)
    ensures NodesFor([MADE_ROOT] + given, o) == NodesFor(given, o)
  {
    if given != [] {
      var front, last := given[..|given| - 1], given[|given| - 1];
      RootCountsNothing(front, o);
      assert ([MADE_ROOT] + given)[..|given|] == [MADE_ROOT] + front;
      assert ([MADE_ROOT] + given)[|given|] == last;
    } else {
      assert [MADE_ROOT] + given == [MADE_ROOT];
      assert [MADE_ROOT][..0] == [];
    }
  }

  lemma StartIsForest(given: seq<Node>, depth: map<Id, nat>)
    requires GivenSound(given, depth)
    ensures Forest(StartOf(given), depth[MadeRoot := 0])
    ensures forall o :: NodesFor(StartOf(given), o) == NodesFor(given, o)
    ensures forall n | n in StartOf(given) :: n.id.Given? || n.id.MadeRoot?
  {
    var start := StartOf(given);
    forall n | n in given ensures Placed(start, depth[MadeRoot := 0], n) {
      assert Placed(given, depth, n);
      if n.parent.Some? {
        var p :| p in given && p.id == n.parent.value;
        assert p in start;
      }
    }
    forall o ensures NodesFor(start, o) == NodesFor(given, o) {
      RootCountsNothing(given, o);
    }
  }

  /** What `folderByPath` holds at the start: the root under the empty text, and given folders. */
  ghost predicate StartFolder(start: seq<Node>, root: Id, text: string, id: Id) {
    (text == "" && id == root) || exists n :: n in start && n.kind == FolderNode && n.path == text && n.id == id
  }

  /** `folderByPath`: the root, and then each given folder under its path. */
  method GivenFolders(start: seq<Node>, root: Id) returns (folders: map<string, Id>)
    ensures forall text | text in folders :: StartFolder(start, root, text, folders[text])
    ensures "" in folders && forall n | n in start && n.kind == FolderNode :: n.path in folders
  {
    folders := map["" := root];
    for i := 0 to |start|
      invariant forall text | text in folders :: StartFolder(start, root, text, folders[text])
      invariant "" in folders && forall j | 0 <= j < i && start[j].kind == FolderNode :: start[j].path in folders
    {
      if start[i].kind == FolderNode {
        folders := folders[start[i].path := start[i].id];
        assert start[i] in start;
      }
    }
  }

  lemma StartIsBuilding(given: seq<Node>, depth: map<Id, nat>, folders: map<string, Id>, root: Node)
    requires GivenSound(given, depth) && root in StartOf(given) && root.kind == RootNode
    requires forall text | text in folders :: StartFolder(StartOf(given), root.id, text, folders[text])
    ensures Building(StartOf(given), depth[MadeRoot := 0], folders, root.id, true)
    ensures FilesFrom(StartOf(given), {})
  {
    var start := StartOf(given);
    StartIsForest(given, depth);
    assert SpelledBy(start, root, []);
    forall names | Plain(names) && names != [] && TextOf(names) in folders ensures Spells(start, folders[TextOf(names)], names) {
      TextGrows(names, "");
      assert StartFolder(start, root.id, TextOf(names), folders[TextOf(names)]);
      var n :| n in start && n.kind == FolderNode && n.path == TextOf(names) && n.id == folders[TextOf(names)];
      assert n in given;
    }
    forall text | text in folders ensures HasId(start, folders[text]) {
      assert StartFolder(start, root.id, text, folders[text]);
    }
  }

  lemma BuildingWeaker(nodes: seq<Node>, depth: map<Id, nat>, folders: map<string, Id>, root: Id, plain: bool)
    requires Building(nodes, depth, folders, root, true)
    ensures Building(nodes, depth, folders, root, plain)
  {
  }

  /** How many of the operations got a node made. */
  function MadeFor(operations: seq<Operation>, known: set<nat>, o: nat): nat {
    if operations == [] then 0
    else
      var last := operations[|operations| - 1];
      MadeFor(operations[..|operations| - 1], known, o) + (if last.id !in known && last.id == o then 1 else 0)
  }

  lemma {:induction false} MadeOnce(operations: seq<Operation>, known: set<nat>, o: nat)
    requires DistinctOperations(operations)
    ensures MadeFor(operations, known, o)
         == if o !in known && (exists i :: 0 <= i < |operations| && operations[i].id == o) then 1 else 0
  {
    if operations != [] {
      var n := |operations| - 1;
      MadeOnce(operations[..n], known, o);
      if i :| 0 <= i < n && operations[i].id == o {
        assert operations[..n][i].id == o;
      }
      assert operations[n].id == o ==> forall i | 0 <= i < n :: operations[i].id != o;
    }
  }

  /** `recomputeNodeCounts` changes nothing but the counts, and none downwards. */
  ghost predicate SameButCounts(nodes: seq<Node>, shown: seq<Node>) {
    |shown| == |nodes|
    && forall i | 0 <= i < |nodes| :: shown[i] == nodes[i].(childCount := shown[i].childCount)
                                      && shown[i].childCount == LargerOf(nodes[i].childCount, DirectChildren(nodes, nodes[i].id))
  }

  function LargerOf(a: nat, b: nat): nat {
    if a < b then b else a
  }

  function DirectChildren(nodes: seq<Node>, id: Id): nat {
    if nodes == [] then 0
    else DirectChildren(nodes[..|nodes| - 1], id) + (if nodes[|nodes| - 1].parent == Some(id) then 1 else 0)
  }

  method RecomputeNodeCounts(nodes: seq<Node>) returns (shown: seq<Node>)
    ensures SameButCounts(nodes, shown)
  {
    var children: map<Id, nat> := map[];
    for i := 0 to |nodes|
      invariant forall id :: DirectChildren(nodes[..i], id) == if id in children then children[id] else 0
    {
      assert nodes[..i + 1][..i] == nodes[..i];
      if nodes[i].parent.Some? {
        var id := nodes[i].parent.value;
        children := children[id := (if id in children then children[id] else 0) + 1];
      }
    }
    assert nodes[..|nodes|] == nodes;
    shown := [];
    for i := 0 to |nodes|
      invariant |shown| == i
      invariant forall j | 0 <= j < i :: shown[j] == nodes[j].(childCount := shown[j].childCount)
                  && shown[j].childCount == LargerOf(nodes[j].childCount, DirectChildren(nodes, nodes[j].id))
    {
      var direct := if nodes[i].id in children then children[nodes[i].id] else 0;
      shown := shown + [nodes[i].(childCount := LargerOf(nodes[i].childCount, direct))];
    }
  }

  /** What the loop over the operations keeps. */
  ghost predicate Mapped(start: seq<Node>, nodes: seq<Node>, operations: seq<Operation>, i: nat, known: set<nat>, plain: bool)
    requires i <= |operations|
  {
    && start <= nodes
    && (forall o :: NodesFor(nodes, o) == NodesFor(start, o) + MadeFor(operations[..i], known, o))
    && FilesFrom(nodes, set j | 0 <= j < i :: operations[j].id)
    && (plain ==> forall j | 0 <= j < i && operations[j].id !in known :: FileFor(nodes, operations[j]))
  }

  lemma NothingMapped(start: seq<Node>, operations: seq<Operation>, known: set<nat>, plain: bool)
    requires FilesFrom(start, {})
    ensures Mapped(start, start, operations, 0, known, plain)
  {
  }

  lemma MappedNext(start: seq<Node>, nodes: seq<Node>, operations: seq<Operation>, i: nat, known: set<nat>, plain: bool, more: seq<Node>)
    requires i < |operations| && Mapped(start, nodes, operations, i, known, plain) && nodes <= more
    requires if operations[i].id in known then more == nodes
             else (forall o :: NodesFor(more, o) == NodesFor(nodes, o) + (if o == operations[i].id then 1 else 0))
                  && FilesFrom(more, (set j | 0 <= j < i :: operations[j].id) + {operations[i].id})
                  && (plain ==> FileFor(more, operations[i]))
    ensures Mapped(start, more, operations, i + 1, known, plain)
  {
    assert operations[..i + 1][..i] == operations[..i];
    assert (set j | 0 <= j < i + 1 :: operations[j].id) == (set j | 0 <= j < i :: operations[j].id) + {operations[i].id};
    if plain {
      forall j | 0 <= j < i && operations[j].id !in known ensures FileFor(more, operations[j]) {
        FileForStays(nodes, more, operations[j]);
      }
    }
  }

  /** `buildMindMapNodes`: still a forest, exactly one node for each operation, and, when the
      destinations are plain, each made file under the folders that spell its destination. */
  method BuildMindMapNodes(given: seq<Node>, operations: seq<Operation>, ghost depth: map<Id, nat>, ghost plain: bool)
    returns (shown: seq<Node>, nodes: seq<Node>, ghost deeper: map<Id, nat>)
    requires GivenSound(given, depth) && DistinctOperations(operations)
    requires plain ==> forall op | op in operations :: Plain(op.destination)
    ensures Forest(nodes, deeper) && SameButCounts(nodes, shown) && StartOf(given) <= nodes
    ensures forall i | 0 <= i < |operations| :: NodesFor(nodes, operations[i].id) == 1
    ensures plain ==> forall i | 0 <= i < |operations| && NodesFor(given, operations[i].id) == 0 :: FileFor(nodes, operations[i])
  {
    nodes := StartOf(given);
    var root :| root in nodes && root.kind == RootNode;
    var known := set n | n in nodes && n.operation.Some? :: n.operation.value;
    var folders := GivenFolders(nodes, root.id);
    StartIsForest(given, depth);
    StartIsBuilding(given, depth, folders, root);
    deeper := depth[MadeRoot := 0];
    BuildingWeaker(nodes, deeper, folders, root.id, plain);
    ghost var start := nodes;
    NothingMapped(start, operations, known, plain);
    for i := 0 to |operations|
      invariant Building(nodes, deeper, folders, root.id, plain) && Mapped(start, nodes, operations, i, known, plain)
    {
      nodes, folders, deeper := NextOperation(nodes, folders, root.id, operations, i, known, deeper, plain, start);
    }
    OneNodeEach(start, nodes, operations, known, given, plain);
    shown := RecomputeNodeCounts(nodes);
  }

  /** One turn of the loop over the operations. */
  method NextOperation(nodes: seq<Node>, folders: map<string, Id>, root: Id, operations: seq<Operation>, i: nat, known: set<nat>,
                       ghost depth: map<Id, nat>, ghost plain: bool, ghost start: seq<Node>)
    returns (after: seq<Node>, nowFolders: map<string, Id>, ghost deeper: map<Id, nat>)
    requires i < |operations| && (plain ==> forall op | op in operations :: Plain(op.destination))
    requires Building(nodes, depth, folders, root, plain) && Mapped(start, nodes, operations, i, known, plain)
    requires DistinctOperations(operations)
    ensures Building(after, deeper, nowFolders, root, plain) && Mapped(start, after, operations, i + 1, known, plain)
  {
    after, nowFolders, deeper := nodes, folders, depth;
    if operations[i].id !in known {
      assert operations[i] in operations;
      after, nowFolders, deeper := AddOperation(nodes, folders, root, operations[i], depth, plain,
        set j | 0 <= j < i :: operations[j].id);
    }
    MappedNext(start, nodes, operations, i, known, plain, after);
  }

  lemma OneNodeEach(start: seq<Node>, nodes: seq<Node>, operations: seq<Operation>, known: set<nat>, given: seq<Node>, plain: bool)
    requires Mapped(start, nodes, operations, |operations|, known, plain) && DistinctOperations(operations)
    requires known == set n | n in start && n.operation.Some? :: n.operation.value
    requires forall o :: NodesFor(start, o) == NodesFor(given, o) <= 1
    ensures forall i | 0 <= i < |operations| :: NodesFor(nodes, operations[i].id) == 1
    ensures plain ==> forall i | 0 <= i < |operations| && NodesFor(given, operations[i].id) == 0 :: FileFor(nodes, operations[i])
  {
    assert operations[..|operations|] == operations;
    forall i | 0 <= i < |operations|
      ensures NodesFor(nodes, operations[i].id) == 1
      ensures operations[i].id in known <==> NodesFor(given, operations[i].id) != 0
    {
      NodesForNone(start, operations[i].id);
      MadeOnce(operations, known, operations[i].id);
    }
  }
}
