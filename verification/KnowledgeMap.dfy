/** The knowledge map: nodes that group files, and the edges that say in which context. */
module KnowledgeMap {
  import opened FileTree

  datatype Context = Business | Personal | Mixed | Unknown

  datatype FallbackKind = Organization | Project

  datatype NodeId =
    | Root | ContextNode(context: Context) | DocumentType(key: string) | Year(year: int) | Identity(identity: nat)
    | Semantic(kind: FallbackKind, key: string)

  datatype Relationship = Relationship(identity: nat, name: string, kind: string)

  /** One search result with its detail, as far as the map looks at it. */
  datatype Row = Row(
    file: nat, context: Context, needsReview: bool, documentType: Option<string>, year: Option<int>,
    relationships: seq<Relationship>, project: Option<string>, supplier: Option<string>, customer: Option<string>)

  datatype Node = Node(files: set<nat>, contexts: set<Context>, reviewCount: nat)

  datatype Edge = Edge(source: NodeId, target: NodeId, kind: string)

  /** How names and keys are compared: by locale, and after normalisation. */
  datatype Compare = Compare(same: (string, string) -> bool, normalized: string -> string)

  // ---- what one row asks for

  /** A node that groups the file of a row, and the kind of the edge from its context. */
  datatype NodeLink = NodeLink(node: NodeId, kind: string)

  predicate Resolved(row: Row, value: string, compare: Compare) {
    exists i | 0 <= i < |row.relationships| :: compare.same(row.relationships[i].name, value)
  }

  function Fallback(row: Row, value: Option<string>, kind: FallbackKind, relation: string, compare: Compare): seq<NodeLink> {
    if value.None? || Resolved(row, value.value, compare) then []
    else [NodeLink(Semantic(kind, compare.normalized(value.value)), relation)]
  }

  function IdentityLinks(relationships: seq<Relationship>): (links: seq<NodeLink>)
    ensures |links| == |relationships|
    ensures forall i | 0 <= i < |links| :: links[i] == NodeLink(Identity(relationships[i].identity), relationships[i].kind)
  {
    seq(|relationships|, i requires 0 <= i < |relationships| => NodeLink(Identity(relationships[i].identity), relationships[i].kind))
  }

  /** The links of a row below its context, in the order in which they are added. */
  function LinksOf(row: Row, compare: Compare): (links: seq<NodeLink>)
    ensures forall i | 0 <= i < |links| :: IsGroup(links[i].node)
  {
    (if row.documentType.Some? then [NodeLink(DocumentType(compare.normalized(row.documentType.value)), "document_type")] else [])
    + (if row.year.Some? then [NodeLink(Year(row.year.value), "year")] else [])
    + IdentityLinks(row.relationships)
    + Fallback(row, row.project, Project, "project", compare)
    + Fallback(row, row.supplier, Organization, "supplier", compare)
    + Fallback(row, row.customer, Organization, "customer", compare)
  }

  ghost predicate Mentions(row: Row, compare: Compare, node: NodeId) {
    || node == Root || node == ContextNode(row.context)
    || exists i :: 0 <= i < |LinksOf(row, compare)| && LinksOf(row, compare)[i].node == node
  }

  // ---- the map under construction

  /** A membership that was added: this node, this file, seen in this context. */
  datatype Membership = Membership(node: NodeId, file: nat, context: Context)

  ghost function FilesOf(log: set<Membership>, node: NodeId): set<nat> {
    set m | m in log && m.node == node :: m.file
  }

  ghost function ContextsOf(log: set<Membership>, node: NodeId): set<Context> {
    set m | m in log && m.node == node :: m.context
  }

  /** The node of `log` for each node, counting the flagged files once. */
  ghost predicate Agrees(nodes: map<NodeId, Node>, log: set<Membership>, flagged: set<nat>) {
    && Root in nodes
    && (forall m | m in log :: m.node in nodes)
    && (forall id | id in nodes :: NodeAgrees(nodes[id], log, flagged, id))
  }

  ghost predicate NodeAgrees(n: Node, log: set<Membership>, flagged: set<nat>, id: NodeId) {
    n.files == FilesOf(log, id) && n.contexts == ContextsOf(log, id) && n.reviewCount == |n.files * flagged|
  }

  ghost predicate EdgesJoin(nodes: map<NodeId, Node>, edges: set<Edge>) {
    forall e | e in edges :: e.source in nodes && e.target in nodes
  }

  /** Below the contexts, a node is in a context exactly when an edge comes from it. */
  ghost predicate ContextsAreEdges(log: set<Membership>, edges: set<Edge>) {
    MembersAreLinked(log, edges) && EdgesAreShared(log, edges)
  }

  ghost predicate MembersAreLinked(log: set<Membership>, edges: set<Edge>) {
    forall m | m in log && IsGroup(m.node) :: Linked(edges, m.context, m.node)
  }

  ghost predicate EdgesAreShared(log: set<Membership>, edges: set<Edge>) {
    forall e | e in edges :: Shared(log, e)
  }

  /** An edge runs from the root to a context, or from a context to a node that is in it. */
  ghost predicate Shared(log: set<Membership>, e: Edge) {
    if e.source == Root then e.target.ContextNode?
    else e.source.ContextNode? && IsGroup(e.target) && e.source.context in ContextsOf(log, e.target)
  }

  /** A node below the contexts. */
  predicate IsGroup(id: NodeId) {
    !id.Root? && !id.ContextNode?
  }

  ghost predicate Linked(edges: set<Edge>, context: Context, node: NodeId) {
    exists e :: e in edges && e.source == ContextNode(context) && e.target == node
  }

  /** `n` after a file joined it. */
  function Joined(n: Node, file: nat, context: Context, needsReview: bool): Node {
    Node(n.files + {file}, n.contexts + {context}, if file !in n.files && needsReview then n.reviewCount + 1 else n.reviewCount)
  }

  lemma JoinedAgrees(n: Node, log: set<Membership>, flagged: set<nat>, m: Membership)
    requires NodeAgrees(n, log, flagged, m.node)
    ensures NodeAgrees(Joined(n, m.file, m.context, m.file in flagged), log + {m}, flagged, m.node)
  {
    assert FilesOf(log + {m}, m.node) == n.files + {m.file};
    assert ContextsOf(log + {m}, m.node) == n.contexts + {m.context};
    if m.file !in n.files && m.file in flagged {
      assert (n.files + {m.file}) * flagged == (n.files * flagged) + {m.file};
    } else {
      assert (n.files + {m.file}) * flagged == n.files * flagged;
    }
  }

  lemma OthersAgree(n: Node, log: set<Membership>, flagged: set<nat>, m: Membership, id: NodeId)
    requires NodeAgrees(n, log, flagged, id) && id != m.node
    ensures NodeAgrees(n, log + {m}, flagged, id)
  {
    assert forall x | x in log + {m} && x.node == id :: x in log;
    assert FilesOf(log + {m}, id) == FilesOf(log, id) && ContextsOf(log + {m}, id) == ContextsOf(log, id);
  }

  lemma MembershipAdded(nodes: map<NodeId, Node>, log: set<Membership>, flagged: set<nat>, m: Membership)
    requires Agrees(nodes, log, flagged) && m.node in nodes
    ensures Agrees(nodes[m.node := Joined(nodes[m.node], m.file, m.context, m.file in flagged)], log + {m}, flagged)
  {
    JoinedAgrees(nodes[m.node], log, flagged, m);
    forall id | id in nodes && id != m.node ensures NodeAgrees(nodes[id], log + {m}, flagged, id) {
      OthersAgree(nodes[id], log, flagged, m, id);
    }
  }

  lemma NodeAdded(nodes: map<NodeId, Node>, log: set<Membership>, flagged: set<nat>, id: NodeId)
    requires Agrees(nodes, log, flagged) && id !in nodes
    ensures Agrees(nodes[id := Node({}, {}, 0)], log, flagged)
  {
    assert FilesOf(log, id) == {} && ContextsOf(log, id) == {};
    assert FilesOf(log, id) * flagged == {};
  }

  /** What every step keeps. */
  ghost predicate Sound(nodes: map<NodeId, Node>, edges: set<Edge>, log: set<Membership>, flagged: set<nat>) {
    Agrees(nodes, log, flagged) && EdgesJoin(nodes, edges) && ContextsAreEdges(log, edges)
  }

  function WithNode(nodes: map<NodeId, Node>, id: NodeId): map<NodeId, Node> {
    if id in nodes then nodes else nodes[id := Node({}, {}, 0)]
  }

  function WithFile(nodes: map<NodeId, Node>, id: NodeId, file: nat, context: Context, needsReview: bool): map<NodeId, Node>
    requires id in nodes
  {
    nodes[id := Joined(nodes[id], file, context, needsReview)]
  }

  /** `ensureNode`, then `addMembership`. */
  function WithMember(nodes: map<NodeId, Node>, m: Membership, needsReview: bool): (more: map<NodeId, Node>)
    ensures more.Keys == nodes.Keys + {m.node}
  {
    WithFile(WithNode(nodes, m.node), m.node, m.file, m.context, needsReview)
  }

  lemma MemberAgrees(nodes: map<NodeId, Node>, log: set<Membership>, flagged: set<nat>, m: Membership)
    requires Agrees(nodes, log, flagged)
    ensures Agrees(WithMember(nodes, m, m.file in flagged), log + {m}, flagged)
  {
    if m.node !in nodes {
      NodeAdded(nodes, log, flagged, m.node);
    }
    MembershipAdded(WithNode(nodes, m.node), log, flagged, m);
  }

  lemma EdgeJoins(nodes: map<NodeId, Node>, more: map<NodeId, Node>, edges: set<Edge>, e: Edge)
    requires EdgesJoin(nodes, edges) && nodes.Keys <= more.Keys && e.source in more && e.target in more
    ensures EdgesJoin(more, edges + {e})
  {
    forall x | x in edges + {e} ensures x.source in more && x.target in more {
      assert x in edges ==> x.source in nodes.Keys && x.target in nodes.Keys;
    }
  }

  lemma AttachedIsSound(
      nodes: map<NodeId, Node>, edges: set<Edge>, log: set<Membership>, flagged: set<nat>, m: Membership, kind: string)
    requires Sound(nodes, edges, log, flagged) && IsGroup(m.node) && ContextNode(m.context) in nodes
    ensures Sound(WithMember(nodes, m, m.file in flagged), edges + {Edge(ContextNode(m.context), m.node, kind)}, log + {m}, flagged)
  {
    MemberAgrees(nodes, log, flagged, m);
    EdgeJoins(nodes, WithMember(nodes, m, m.file in flagged), edges, Edge(ContextNode(m.context), m.node, kind));
    LinkAdded(log, edges, m, Edge(ContextNode(m.context), m.node, kind));
  }

  lemma PlacedIsSound(
      nodes: map<NodeId, Node>, edges: set<Edge>, log: set<Membership>, flagged: set<nat>, r: Membership, c: Membership)
    requires Sound(nodes, edges, log, flagged)
    requires r.node == Root && c.node == ContextNode(c.context) && r.file == c.file && r.context == c.context
    ensures Sound(WithMember(WithMember(nodes, r, r.file in flagged), c, c.file in flagged),
                  edges + {Edge(Root, c.node, "contains")}, log + {r} + {c}, flagged)
  {
    var rooted := WithMember(nodes, r, r.file in flagged);
    MemberAgrees(nodes, log, flagged, r);
    MemberAgrees(rooted, log + {r}, flagged, c);
    EdgeJoins(nodes, WithMember(rooted, c, c.file in flagged), edges, Edge(Root, c.node, "contains"));
    ContextAdded(log, edges, r.file, r.context);
  }

  lemma Regroup<T>(a: set<T>, b: set<T>, c: set<T>)
    ensures a + b + c == a + (b + c)
  {
  }

  class KnowledgeModel {
    var nodes: map<NodeId, Node>
    var edges: set<Edge>

    constructor ()
      ensures nodes == map[Root := Node({}, {}, 0)] && edges == {}
    {
      nodes, edges := map[Root := Node({}, {}, 0)], {};
    }

    /** `ensureNode`. */
    method EnsureNode(id: NodeId)
      modifies this`nodes
      ensures nodes == WithNode(old(nodes), id)
    {
      if id !in nodes {
        nodes := nodes[id := Node({}, {}, 0)];
      }
    }

    /** `addMembership`. */
    method AddMembership(id: NodeId, file: nat, context: Context, needsReview: bool)
      requires id in nodes
      modifies this`nodes
      ensures nodes == WithFile(old(nodes), id, file, context, needsReview)
    {
      nodes := nodes[id := Joined(nodes[id], file, context, needsReview)];
    }

    /** A row joins a node of its context: node, membership and edge. */
    method Attach(link: NodeLink, row: Row)
      modifies this
      ensures nodes == WithMember(old(nodes), MemberOf(row, link.node), row.needsReview)
      ensures edges == old(edges) + {Edge(ContextNode(row.context), link.node, link.kind)}
    {
      EnsureNode(link.node);
      AddMembership(link.node, row.file, row.context, row.needsReview);
      edges := edges + {Edge(ContextNode(row.context), link.node, link.kind)};
    }

    /** One row of `buildKnowledgeMapModel`: the root, the context, and the nodes below it in order. */
    method AddRow(row: Row, compare: Compare)
      requires Root in nodes
      modifies this
      ensures nodes == NodesUpTo(Placed(old(nodes), row), row, LinksOf(row, compare), |LinksOf(row, compare)|)
      ensures edges == old(edges) + EdgesOf(row, compare)
    {
      AddMembership(Root, row.file, row.context, row.needsReview);
      EnsureNode(ContextNode(row.context));
      AddMembership(ContextNode(row.context), row.file, row.context, row.needsReview);
      edges := edges + {Edge(Root, ContextNode(row.context), "contains")};
      AttachAll(row, LinksOf(row, compare));
      EdgesOfRow(old(edges), row, compare);
    }

    /** The nodes below the context. */
    method AttachAll(row: Row, links: seq<NodeLink>)
      modifies this
      ensures nodes == NodesUpTo(old(nodes), row, links, |links|) && edges == old(edges) + EdgesUpTo(row, links, |links|)
    {
      for i := 0 to |links|
        invariant nodes == NodesUpTo(old(nodes), row, links, i) && edges == old(edges) + EdgesUpTo(row, links, i)
      {
        Attach(links[i], row);
        UpToNext(row, links, i);
        Regroup(old(edges), EdgesUpTo(row, links, i), {Edge(ContextNode(row.context), links[i].node, links[i].kind)});
      }
    }
  }

  /** A row in one of its nodes. */
  function MemberOf(row: Row, node: NodeId): Membership {
    Membership(node, row.file, row.context)
  }

  /** The root and the context of a row have its file. */
  function Placed(nodes: map<NodeId, Node>, row: Row): map<NodeId, Node> {
    WithMember(WithMember(nodes, MemberOf(row, Root), row.needsReview), MemberOf(row, ContextNode(row.context)), row.needsReview)
  }

  function NodesUpTo(nodes: map<NodeId, Node>, row: Row, links: seq<NodeLink>, i: nat): map<NodeId, Node>
    requires i <= |links|
  {
    if i == 0 then nodes
    else WithMember(NodesUpTo(nodes, row, links, i - 1), MemberOf(row, links[i - 1].node), row.needsReview)
  }

  lemma {:induction false} AttachedAllIsSound(
      nodes: map<NodeId, Node>, edges: set<Edge>, log: set<Membership>, flagged: set<nat>, row: Row, links: seq<NodeLink>, i: nat)
    requires Sound(nodes, edges, log, flagged) && ContextNode(row.context) in nodes && i <= |links|
    requires row.needsReview == (row.file in flagged) && forall j | 0 <= j < |links| :: IsGroup(links[j].node)
    ensures Sound(NodesUpTo(nodes, row, links, i), edges + EdgesUpTo(row, links, i), log + GroupsUpTo(row, links, i), flagged)
    ensures ContextNode(row.context) in NodesUpTo(nodes, row, links, i)
  {
    if i == 0 {
      assert edges + EdgesUpTo(row, links, 0) == edges && log + GroupsUpTo(row, links, 0) == log;
    } else {
      var link := links[i - 1];
      AttachedAllIsSound(nodes, edges, log, flagged, row, links, i - 1);
      AttachedIsSound(NodesUpTo(nodes, row, links, i - 1), edges + EdgesUpTo(row, links, i - 1),
                      log + GroupsUpTo(row, links, i - 1), flagged, MemberOf(row, link.node), link.kind);
      UpToNext(row, links, i - 1);
      Regroup(edges, EdgesUpTo(row, links, i - 1), {Edge(ContextNode(row.context), link.node, link.kind)});
      Regroup(log, GroupsUpTo(row, links, i - 1), {MemberOf(row, link.node)});
    }
  }

  ghost function GroupsUpTo(row: Row, links: seq<NodeLink>, i: nat): set<Membership>
    requires i <= |links|
  {
    set j | 0 <= j < i :: MemberOf(row, links[j].node)
  }

  ghost function EdgesUpTo(row: Row, links: seq<NodeLink>, i: nat): set<Edge>
    requires i <= |links|
  {
    set j | 0 <= j < i :: Edge(ContextNode(row.context), links[j].node, links[j].kind)
  }

  lemma UpToNext(row: Row, links: seq<NodeLink>, i: nat)
    requires i < |links|
    ensures GroupsUpTo(row, links, i + 1) == GroupsUpTo(row, links, i) + {MemberOf(row, links[i].node)}
    ensures EdgesUpTo(row, links, i + 1) == EdgesUpTo(row, links, i) + {Edge(ContextNode(row.context), links[i].node, links[i].kind)}
  {
  }

  ghost function MembershipsOf(row: Row, compare: Compare): set<Membership> {
    {MemberOf(row, Root)} + {MemberOf(row, ContextNode(row.context))}
    + GroupsUpTo(row, LinksOf(row, compare), |LinksOf(row, compare)|)
  }

  ghost function EdgesOf(row: Row, compare: Compare): set<Edge> {
    {Edge(Root, ContextNode(row.context), "contains")} + EdgesUpTo(row, LinksOf(row, compare), |LinksOf(row, compare)|)
  }

  lemma EdgesOfRow(edges: set<Edge>, row: Row, compare: Compare)
    ensures edges + {Edge(Root, ContextNode(row.context), "contains")} + EdgesUpTo(row, LinksOf(row, compare), |LinksOf(row, compare)|)
         == edges + EdgesOf(row, compare)
  {
  }

  lemma MembershipsOfRow(log: set<Membership>, row: Row, compare: Compare)
    ensures log + {MemberOf(row, Root)} + {MemberOf(row, ContextNode(row.context))}
            + GroupsUpTo(row, LinksOf(row, compare), |LinksOf(row, compare)|)
         == log + MembershipsOf(row, compare)
  {
  }

  lemma SharedStays(log: set<Membership>, more: set<Membership>, e: Edge)
    requires Shared(log, e) && log <= more
    ensures Shared(more, e)
  {
    if e.source != Root {
      var y :| y in log && y.node == e.target && y.context == e.source.context;
      assert y in more;
    }
  }

  lemma LinkedStays(edges: set<Edge>, more: set<Edge>, context: Context, node: NodeId)
    requires Linked(edges, context, node) && edges <= more
    ensures Linked(more, context, node)
  {
    var e :| e in edges && e.source == ContextNode(context) && e.target == node;
    assert e in more;
  }

  lemma LinkAdded(log: set<Membership>, edges: set<Edge>, m: Membership, e: Edge)
    requires ContextsAreEdges(log, edges) && IsGroup(m.node)
    requires e.source == ContextNode(m.context) && e.target == m.node
    ensures ContextsAreEdges(log + {m}, edges + {e})
  {
    assert e in edges + {e} && m in log + {m};
    forall x | x in log + {m} && IsGroup(x.node) ensures Linked(edges + {e}, x.context, x.node) {
      if x in log {
        LinkedStays(edges, edges + {e}, x.context, x.node);
      }
    }
    forall x | x in edges + {e} ensures Shared(log + {m}, x) {
      if x in edges {
        SharedStays(log, log + {m}, x);
      }
    }
  }

  lemma ContextAdded(log: set<Membership>, edges: set<Edge>, file: nat, context: Context)
    requires ContextsAreEdges(log, edges)
    ensures ContextsAreEdges(log + {Membership(Root, file, context)} + {Membership(ContextNode(context), file, context)},
                             edges + {Edge(Root, ContextNode(context), "contains")})
  {
    var more, wider := log + {Membership(Root, file, context)} + {Membership(ContextNode(context), file, context)},
      edges + {Edge(Root, ContextNode(context), "contains")};
    forall x | x in more && IsGroup(x.node) ensures Linked(wider, x.context, x.node) {
      LinkedStays(edges, wider, x.context, x.node);
    }
    forall x | x in wider ensures Shared(more, x) {
      if x in edges {
        SharedStays(log, more, x);
      }
    }
  }

  // ---- the whole map

  ghost predicate DistinctFiles(rows: seq<Row>) {
    forall i, j | 0 <= i < j < |rows| :: rows[i].file != rows[j].file
  }

  ghost function AllMemberships(rows: seq<Row>, compare: Compare): set<Membership> {
    if rows == [] then {}
    else AllMemberships(rows[..|rows| - 1], compare) + MembershipsOf(rows[|rows| - 1], compare)
  }

  ghost function AllEdges(rows: seq<Row>, compare: Compare): set<Edge> {
    if rows == [] then {} else AllEdges(rows[..|rows| - 1], compare) + EdgesOf(rows[|rows| - 1], compare)
  }

  /** The nodes after all of `rows`. */
  function AllNodes(rows: seq<Row>, compare: Compare): (nodes: map<NodeId, Node>)
    ensures Root in nodes
  {
    if rows == [] then map[Root := Node({}, {}, 0)]
    else AfterRow(AllNodes(rows[..|rows| - 1], compare), rows[|rows| - 1], LinksOf(rows[|rows| - 1], compare))
  }

  function AfterRow(nodes: map<NodeId, Node>, row: Row, links: seq<NodeLink>): (after: map<NodeId, Node>)
    ensures nodes.Keys <= after.Keys
  {
    UpToKeeps(Placed(nodes, row), row, links, |links|);
    NodesUpTo(Placed(nodes, row), row, links, |links|)
  }

  lemma {:induction false} UpToKeeps(nodes: map<NodeId, Node>, row: Row, links: seq<NodeLink>, i: nat)
    requires i <= |links|
    ensures nodes.Keys <= NodesUpTo(nodes, row, links, i).Keys
  {
    if i > 0 {
      UpToKeeps(nodes, row, links, i - 1);
    }
  }

  ghost function Flagged(rows: seq<Row>): set<nat> {
    set i | 0 <= i < |rows| && rows[i].needsReview :: rows[i].file
  }

  /** `buildKnowledgeMapModel`, on rows in any order. */
  method BuildKnowledgeMapModel(rows: seq<Row>, compare: Compare) returns (model: KnowledgeModel)
    requires DistinctFiles(rows)
    ensures fresh(model) && model.nodes == AllNodes(rows, compare) && model.edges == AllEdges(rows, compare)
    ensures Sound(model.nodes, model.edges, AllMemberships(rows, compare), Flagged(rows))
  {
    model := new KnowledgeModel();
    for i := 0 to |rows|
      invariant fresh(model) && model.nodes == AllNodes(rows[..i], compare) && model.edges == AllEdges(rows[..i], compare)
    {
      model.AddRow(rows[i], compare);
      NextRow(rows, compare, i);
    }
    assert rows[..|rows|] == rows;
    forall i | 0 <= i < |rows| ensures rows[i].needsReview == (rows[i].file in Flagged(rows)) {
      FlaggedExactly(rows, i);
    }
    BuiltIsSound(rows, compare, Flagged(rows));
  }

  lemma NextRow(rows: seq<Row>, compare: Compare, i: nat)
    requires i < |rows|
    ensures AllNodes(rows[..i + 1], compare) == AfterRow(AllNodes(rows[..i], compare), rows[i], LinksOf(rows[i], compare))
    ensures AllEdges(rows[..i + 1], compare) == AllEdges(rows[..i], compare) + EdgesOf(rows[i], compare)
  {
    assert rows[..i + 1][..i] == rows[..i];
  }

  lemma RowIsSound(
      nodes: map<NodeId, Node>, edges: set<Edge>, log: set<Membership>, flagged: set<nat>, row: Row, compare: Compare)
    requires Sound(nodes, edges, log, flagged) && row.needsReview == (row.file in flagged)
    ensures Sound(AfterRow(nodes, row, LinksOf(row, compare)), edges + EdgesOf(row, compare), log + MembershipsOf(row, compare), flagged)
  {
    var links, within := LinksOf(row, compare), ContextNode(row.context);
    PlacedIsSound(nodes, edges, log, flagged, MemberOf(row, Root), MemberOf(row, within));
    AttachedAllIsSound(Placed(nodes, row), edges + {Edge(Root, within, "contains")},
                       log + {MemberOf(row, Root)} + {MemberOf(row, within)}, flagged, row, links, |links|);
    EdgesOfRow(edges, row, compare);
    MembershipsOfRow(log, row, compare);
  }

  /** After every row, the map agrees with what was added. */
  lemma {:induction false} BuiltIsSound(rows: seq<Row>, compare: Compare, flagged: set<nat>)
    requires forall i | 0 <= i < |rows| :: rows[i].needsReview == (rows[i].file in flagged)
    ensures Sound(AllNodes(rows, compare), AllEdges(rows, compare), AllMemberships(rows, compare), flagged)
  {
    if rows == [] {
      EmptyIsSound(flagged);
    } else {
      var before, row := rows[..|rows| - 1], rows[|rows| - 1];
      BuiltIsSound(before, compare, flagged);
      RowIsSound(AllNodes(before, compare), AllEdges(before, compare), AllMemberships(before, compare), flagged, row, compare);
    }
  }

  lemma EmptyIsSound(flagged: set<nat>)
    ensures Sound(map[Root := Node({}, {}, 0)], {}, {}, flagged)
  {
    assert FilesOf({}, Root) == {} && ContextsOf({}, Root) == {};
    assert FilesOf({}, Root) * flagged == {};
  }

  lemma FlaggedExactly(rows: seq<Row>, i: nat)
    requires DistinctFiles(rows) && i < |rows|
    ensures rows[i].needsReview <==> rows[i].file in Flagged(rows)
  {
    if rows[i].file in Flagged(rows) {
      var j :| 0 <= j < |rows| && rows[j].needsReview && rows[j].file == rows[i].file;
      assert i == j;
    }
  }

  /** A file is in a node exactly when its row mentions it, and the context is the row's. */
  lemma {:induction false} MembershipsExactly(rows: seq<Row>, compare: Compare, m: Membership)
    ensures m in AllMemberships(rows, compare)
       <==> exists i :: 0 <= i < |rows| && rows[i].file == m.file && rows[i].context == m.context && Mentions(rows[i], compare, m.node)
  {
    if rows != [] {
      var n := |rows| - 1;
      MembershipsExactly(rows[..n], compare, m);
      RowMemberships(rows[n], compare, m);
      if i :| 0 <= i < n && rows[..n][i].file == m.file && rows[..n][i].context == m.context && Mentions(rows[..n][i], compare, m.node) {
        assert rows[i] == rows[..n][i];
      }
      if i :| 0 <= i < |rows| && rows[i].file == m.file && rows[i].context == m.context && Mentions(rows[i], compare, m.node) {
        assert i < n ==> rows[..n][i] == rows[i];
      }
    }
  }

  /** The files of a node are those of the rows that mention it, whatever the order of the rows. */
  lemma NodesExactly(rows: seq<Row>, compare: Compare, id: NodeId, file: nat)
    requires DistinctFiles(rows) && id in AllNodes(rows, compare)
    ensures var node := AllNodes(rows, compare)[id];
      && (file in node.files <==> exists i :: 0 <= i < |rows| && rows[i].file == file && Mentions(rows[i], compare, id))
      && node.reviewCount == |node.files * Flagged(rows)|
  {
    forall i | 0 <= i < |rows| ensures rows[i].needsReview == (rows[i].file in Flagged(rows)) {
      FlaggedExactly(rows, i);
    }
    BuiltIsSound(rows, compare, Flagged(rows));
    var log := AllMemberships(rows, compare);
    assert NodeAgrees(AllNodes(rows, compare)[id], log, Flagged(rows), id);
    if file in FilesOf(log, id) {
      var m :| m in log && m.node == id && m.file == file;
      MembershipsExactly(rows, compare, m);
    }
    if i :| 0 <= i < |rows| && rows[i].file == file && Mentions(rows[i], compare, id) {
      MembershipsExactly(rows, compare, MemberOf(rows[i], id));
      assert MemberOf(rows[i], id) in log;
    }
  }

  lemma RowMemberships(row: Row, compare: Compare, m: Membership)
    ensures m in MembershipsOf(row, compare) <==> row.file == m.file && row.context == m.context && Mentions(row, compare, m.node)
  {
    var links := LinksOf(row, compare);
    if row.file == m.file && row.context == m.context && Mentions(row, compare, m.node) {
      if m.node != Root && m.node != ContextNode(row.context) {
        var i :| 0 <= i < |links| && links[i].node == m.node;
        assert Membership(links[i].node, row.file, row.context) in MembershipsOf(row, compare);
      }
    }
  }

  /** The context nodes partition the files of the root. */
  lemma ContextsPartition(rows: seq<Row>, compare: Compare, file: nat)
    requires DistinctFiles(rows)
    ensures var log := AllMemberships(rows, compare);
      && (file in FilesOf(log, Root) <==> exists i :: 0 <= i < |rows| && rows[i].file == file)
      && (file in FilesOf(log, Root) <==> exists c :: file in FilesOf(log, ContextNode(c)))
      && (forall c, d | file in FilesOf(log, ContextNode(c)) && file in FilesOf(log, ContextNode(d)) :: c == d)
  {
    var log := AllMemberships(rows, compare);
    if file in FilesOf(log, Root) {
      var m :| m in log && m.node == Root && m.file == file;
      MembershipsExactly(rows, compare, m);
      var i :| 0 <= i < |rows| && rows[i].file == file;
      RowIsInItsContext(rows, compare, i);
    }
    forall c | file in FilesOf(log, ContextNode(c))
      ensures exists i :: 0 <= i < |rows| && rows[i].file == file && rows[i].context == c
      ensures file in FilesOf(log, Root)
    {
      InContext(rows, compare, c, file);
      var i :| 0 <= i < |rows| && rows[i].file == file && rows[i].context == c;
      RowIsInItsContext(rows, compare, i);
    }
    forall i | 0 <= i < |rows| && rows[i].file == file ensures file in FilesOf(log, Root) {
      RowIsInItsContext(rows, compare, i);
    }
  }

  lemma RowIsInItsContext(rows: seq<Row>, compare: Compare, i: nat)
    requires i < |rows|
    ensures rows[i].file in FilesOf(AllMemberships(rows, compare), Root)
    ensures rows[i].file in FilesOf(AllMemberships(rows, compare), ContextNode(rows[i].context))
  {
    var log := AllMemberships(rows, compare);
    var r, c := Membership(Root, rows[i].file, rows[i].context), Membership(ContextNode(rows[i].context), rows[i].file, rows[i].context);
    MembershipsExactly(rows, compare, r);
    MembershipsExactly(rows, compare, c);
    assert Mentions(rows[i], compare, r.node) && Mentions(rows[i], compare, c.node);
    assert r in log && c in log;
  }

  lemma InContext(rows: seq<Row>, compare: Compare, context: Context, file: nat)
    requires file in FilesOf(AllMemberships(rows, compare), ContextNode(context))
    ensures exists i :: 0 <= i < |rows| && rows[i].file == file && rows[i].context == context
  {
    var m :| m in AllMemberships(rows, compare) && m.node == ContextNode(context) && m.file == file;
    MembershipsExactly(rows, compare, m);
    var i :| 0 <= i < |rows| && rows[i].file == m.file && rows[i].context == m.context && Mentions(rows[i], compare, m.node);
  }
}
