/**
 Permissions of the block graph: what a node's parents ask of it and leave to others,
 and the refresh that recomputes the permissions of a whole subgraph.  The functions here
 are the value-level account; PermissionTransaction runs it in place with an undo log.
 */
module Permissions {
  import opened Options
  import opened Sequences
  import opened Digraph
  import opened TopologicalOrder

  /** BLK_PERM_*; a permission mask is a set of these. */
  datatype Perm = ConsistentRead | Write | WriteUnchanged | Resize

  const ALL: set<Perm> := {ConsistentRead, Write, WriteUnchanged, Resize}

  /** c->perm and c->shared_perm. */
  datatype Perms = Perms(perm: set<Perm>, shared: set<Perm>)

  /** perm & (BLK_PERM_WRITE | BLK_PERM_WRITE_UNCHANGED) */
  predicate Writes(p: Perms) {
    Write in p.perm || WriteUnchanged in p.perm
  }

  /** The legal combinations of BDRV_CHILD_*; a filtered child is always the primary one. */
  datatype Role = Filtered | Cow | Storage(data: bool, metadata: bool, primary: bool)

  type Assignment = map<EdgeId, Perms>

  /** c->opaque (the owning node, or None for a device or a job) and c->bs. */
  datatype Edge = Edge(owner: Option<Node>, target: Node)

  /** The parents lists have exactly the edges, each at its target. */
  ghost predicate ParentsOk(parents: map<Node, seq<EdgeId>>, edges: map<EdgeId, Edge>) {
    && (forall n, e :: n in parents && e in parents[n] ==> e in edges && edges[e].target == n)
    && (forall e :: e in edges ==> edges[e].target in parents && e in parents[edges[e].target])
  }

  /** The children lists have exactly the edges owned by nodes, each at its owner. */
  ghost predicate ChildrenOk(children: map<Node, seq<EdgeId>>, edges: map<EdgeId, Edge>) {
    && (forall n, e :: n in children && e in children[n] ==> e in edges && edges[e].owner == Some(n))
    && (forall e :: e in edges && edges[e].owner.Some? ==>
          edges[e].owner.value in children && e in children[edges[e].owner.value])
  }

  function Targets(edges: map<EdgeId, Edge>, list: seq<EdgeId>): (r: seq<Node>) {
    if list == [] then [] else (if list[0] in edges then [edges[list[0]].target] else []) + Targets(edges, list[1..])
  }

  lemma {:induction false} TargetsAre(edges: map<EdgeId, Edge>, list: seq<EdgeId>, v: Node)
    ensures v in Targets(edges, list) <==> exists e :: e in list && e in edges && edges[e].target == v
  {
    if list != [] {
      TargetsAre(edges, list[1..], v);
      assert forall e :: e in list <==> e == list[0] || e in list[1..];
    }
  }

  /** bs->children and bs->parents of every node, and the edges in them. */
  datatype Graph = Graph(children: map<Node, seq<EdgeId>>, parents: map<Node, seq<EdgeId>>, edges: map<EdgeId, Edge>)
  {
    ghost predicate Valid() {
      && children.Keys == parents.Keys
      && ParentsOk(parents, edges)
      && ChildrenOk(children, edges)
    }

    /** child->bs in the order of the children lists. */
    function ChildNodes(): (r: Children)
      requires Valid()
      ensures r.Keys == children.Keys && forall n :: n in r ==> r[n] == Targets(edges, children[n])
    {
      map n | n in children :: Targets(edges, children[n])
    }
  }

  /** Every node with the nodes its children lists point at. */
  ghost function Down(g: Graph): (d: Digraph)
    ensures d.Keys == g.children.Keys
    ensures forall n, e :: n in g.children && e in g.children[n] && e in g.edges ==> g.edges[e].target in d[n]
  {
    map n | n in g.children :: set e | e in g.children[n] && e in g.edges :: g.edges[e].target
  }

  lemma DownIsArrows(g: Graph)
    requires g.Valid()
    ensures Down(g) == Arrows(g.ChildNodes()) && Closed(Down(g))
  {
    forall n | n in g.children ensures Down(g)[n] == Arrows(g.ChildNodes())[n] {
      forall v ensures v in Down(g)[n] <==> v in Arrows(g.ChildNodes())[n] {
        TargetsAre(g.edges, g.children[n], v);
      }
    }
    DownIsClosed(g);
  }

  lemma DownIsClosed(g: Graph)
    requires g.Valid()
    ensures Closed(Down(g))
  {
    forall u, v | u in Down(g) && v in Down(g)[u] ensures v in Down(g) {
      var e :| e in g.children[u] && e in g.edges && g.edges[e].target == v;
    }
  }

  /**
   The driver hooks and node properties the refresh consults.  `accepts` is
   bdrv_check_perm, `childPerm` is bdrv_child_perm with force_share applied.
   */
  datatype Hooks = Hooks(
    driver: Node -> bool,
    writable: Node -> bool,
    aligned: Node -> bool,
    hasChildPerm: Node -> bool,
    accepts: (Node, Perms) -> bool,
    childPerm: (Node, EdgeId, Perms) -> Perms)

  /** bdrv_get_cumulative_perm over a list of parent edges. */
  function Cumulative(perms: Assignment, edges: seq<EdgeId>): (r: Perms)
    requires forall e :: e in edges ==> e in perms
    ensures forall p :: p in r.perm <==> exists e :: e in edges && p in perms[e].perm
    ensures forall p :: p in r.shared <==> forall e :: e in edges ==> p in perms[e].shared
  {
    assert forall p: Perm :: p in ALL by {
      forall p: Perm ensures p in ALL { assert p.ConsistentRead? || p.Write? || p.WriteUnchanged? || p.Resize?; }
    }
    Perms(set e, p | e in edges && p in perms[e].perm :: p,
          set p | p in ALL && forall e :: e in edges ==> p in perms[e].shared)
  }

  /** No parent asks for what another parent does not share: !bdrv_parent_perms_conflict. */
  predicate NoConflict(perms: Assignment, edges: seq<EdgeId>)
    requires forall e :: e in edges ==> e in perms
  {
    forall a, b :: a in edges && b in edges && a != b ==> perms[b].perm <= perms[a].shared
  }

  /** Every edge in the lists of the graph has permissions. */
  ghost predicate Covers(perms: Assignment, g: Graph) {
    && g.children.Keys == g.parents.Keys
    && (forall n, e :: n in g.parents && e in g.parents[n] ==> e in perms)
    && (forall n, e :: n in g.children && e in g.children[n] ==> e in perms)
  }

  /** The checks of bdrv_node_refresh_perm on the node itself. */
  predicate NodeAccepts(h: Hooks, n: Node, c: Perms) {
    && (Writes(c) ==> h.writable(n))
    && (Writes(c) && Resize !in c.perm ==> h.aligned(n))
    && (h.driver(n) ==> h.accepts(n, c))
  }

  ghost function NodeCumulative(g: Graph, perms: Assignment, n: Node): Perms
    requires Covers(perms, g) && n in g.parents
  {
    Cumulative(perms, g.parents[n])
  }

  /** bdrv_node_refresh_perm gives its children new permissions. */
  predicate Forwards(h: Hooks, n: Node) {
    h.driver(n) && h.hasChildPerm(n)
  }

  /** Every out-edge of n as n's driver wants it for the cumulative permissions c. */
  ghost predicate Forwarded(g: Graph, h: Hooks, perms: Assignment, n: Node, c: Perms)
    requires Covers(perms, g) && n in g.children
  {
    Forwards(h, n) ==> forall e :: e in g.children[n] ==> perms[e] == h.childPerm(n, e, c)
  }

  /** What a refresh has to establish for a node. */
  ghost predicate Consistent(g: Graph, h: Hooks, perms: Assignment, n: Node)
    requires Covers(perms, g) && n in g.children
  {
    var c := NodeCumulative(g, perms, n);
    NoConflict(perms, g.parents[n]) && NodeAccepts(h, n, c) && Forwarded(g, h, perms, n, c)
  }

  // ------------------------------------------------------------ the refresh

  ghost function Forward(g: Graph, h: Hooks, perms: Assignment, n: Node): (r: Assignment)
    requires Covers(perms, g) && n in g.children
    ensures r.Keys == perms.Keys && Covers(r, g)
    ensures forall e :: e in perms ==>
              r[e] == if Forwards(h, n) &&
              e in g.children[n] then h.childPerm(n, e, NodeCumulative(g, perms, n)) else perms[e]
  {
    var c := NodeCumulative(g, perms, n);
    if Forwards(h, n) then
      map e | e in perms :: if e in g.children[n] then h.childPerm(n, e, c) else perms[e]
    else perms
  }

  /** One turn of the loop of bdrv_do_refresh_perms. */
  ghost function RefreshNode(g: Graph, h: Hooks, perms: Assignment, n: Node): Option<Assignment>
    requires Covers(perms, g) && n in g.children
  {
    if NoConflict(perms, g.parents[n]) && NodeAccepts(h, n, NodeCumulative(g, perms, n))
    then Some(Forward(g, h, perms, n))
    else None
  }

  /** bdrv_do_refresh_perms: None stands for its error return. */
  ghost function Refresh(g: Graph, h: Hooks, perms: Assignment, list: seq<Node>): (r: Option<Assignment>)
    requires Covers(perms, g) && forall n :: n in list ==> n in g.children
    ensures r.Some? ==> r.value.Keys == perms.Keys && Covers(r.value, g)
  {
    if list == [] then Some(perms)
    else
      var first := RefreshNode(g, h, perms, list[0]);
      if first.None? then None else Refresh(g, h, first.value, list[1..])
  }

  /** The list is one that bdrv_topological_dfs returns. */
  ghost predicate RefreshList(g: Graph, list: seq<Node>) {
    && (forall n :: n in list ==> n in g.children)
    && Sorted(Down(g), list)
  }

  lemma TailIsList(g: Graph, list: seq<Node>)
    requires RefreshList(g, list) && list != []
    ensures RefreshList(g, list[1..])
    ensures list[0] !in list[1..]
  {
  }

  lemma EdgesOf(g: Graph, n: Node)
    requires g.Valid() && n in g.parents
    ensures forall e :: e in g.parents[n] ==> e in g.edges && g.edges[e].target == n
    ensures forall e :: e in g.children[n] ==> e in g.edges && g.edges[e].owner == Some(n)
  {
  }

  lemma NoArrowBack(d: Digraph, list: seq<Node>, m: Node)
    requires Sorted(d, list) && list != [] && m in list
    ensures !Arrow(d, m, list[0])
  {
    var i :| 0 <= i < |list| && list[i] == m;
    assert list[0] !in list[i + 1..];
  }

  /** No listed node points back at the first one. */
  lemma FirstHasNoListedParent(g: Graph, list: seq<Node>, e: EdgeId, m: Node)
    requires g.Valid() && RefreshList(g, list) && list != [] && m in list && e in g.parents[list[0]]
    ensures e !in g.children[m]
  {
    NoArrowBack(Down(g), list, m);
    EdgesOf(g, list[0]);
    EdgesOf(g, m);
  }

  /** Its own edges belong to no other node. */
  lemma FirstOwnsItsEdges(g: Graph, list: seq<Node>, e: EdgeId, m: Node)
    requires g.Valid() && RefreshList(g, list) && list != [] && m in list[1..] && e in g.children[list[0]]
    ensures e !in g.children[m]
  {
    TailIsList(g, list);
    EdgesOf(g, list[0]);
    EdgesOf(g, m);
  }

  lemma RefreshStep(g: Graph, h: Hooks, perms: Assignment, list: seq<Node>, i: nat)
    requires i < |list| && RefreshList(g, list[i..]) && Covers(perms, g)
    ensures RefreshList(g, list[i + 1..])
    ensures var first := RefreshNode(g, h, perms, list[i]);
            Refresh(g, h, perms, list[i..]) == if first.Some? then Refresh(g, h, first.value, list[i + 1..]) else None
  {
  }

  /** A refresh touches only out-edges of listed nodes whose drivers compute their children's permissions. */
  lemma {:induction false} RefreshFrame(g: Graph, h: Hooks, perms: Assignment, list: seq<Node>, e: EdgeId)
    requires RefreshList(g, list) && Covers(perms, g) && e in perms
    requires Refresh(g, h, perms, list).Some?
    requires forall n :: n in list && Forwards(h, n) ==> e !in g.children[n]
    ensures Refresh(g, h, perms, list).value[e] == perms[e]
  {
    if list != [] {
      TailIsList(g, list);
      RefreshFrame(g, h, Forward(g, h, perms, list[0]), list[1..], e);
    }
  }

  /** What is said of a node depends only on the permissions of its own edges. */
  lemma ConsistentFrame(g: Graph, h: Hooks, p: Assignment, q: Assignment, n: Node)
    requires Covers(p, g) && Covers(q, g) && n in g.children
    requires forall e :: e in g.parents[n] || e in g.children[n] ==> p[e] == q[e]
    ensures Consistent(g, h, p, n) == Consistent(g, h, q, n)
    ensures NodeCumulative(g, p, n) == NodeCumulative(g, q, n)
  {
    var c, c' := NodeCumulative(g, p, n), NodeCumulative(g, q, n);
    assert c.perm == c'.perm && c.shared == c'.shared;
  }

  /**
   A refresh that does not fail leaves every listed node consistent: no conflict between its
   parents, no writer on a read-only node, and every out-edge what the node's driver computes
   from its final cumulative permissions.
   */
  lemma {:induction false} RefreshConsistent(g: Graph, h: Hooks, perms: Assignment, list: seq<Node>, n: Node)
    requires g.Valid() && RefreshList(g, list) && Covers(perms, g) && n in list
    requires Refresh(g, h, perms, list).Some?
    ensures Consistent(g, h, Refresh(g, h, perms, list).value, n)
  {
    TailIsList(g, list);
    var first := Forward(g, h, perms, list[0]);
    if n == list[0] {
      FirstStaysConsistent(g, h, perms, list);
    } else {
      RefreshConsistent(g, h, first, list[1..], n);
    }
  }

  /** The edges of the first node are left alone by the others. */
  lemma FirstIsSettled(g: Graph, h: Hooks, perms: Assignment, list: seq<Node>, e: EdgeId)
    requires g.Valid() && RefreshList(g, list) && Covers(perms, g) && list != [] && RefreshList(g, list[1..])
    requires Refresh(g, h, perms, list[1..]).Some? && (e in g.parents[list[0]] || e in g.children[list[0]])
    ensures Refresh(g, h, perms, list[1..]).value[e] == perms[e]
  {
    forall m | m in list[1..] ensures e !in g.children[m] {
      if e in g.parents[list[0]] {
        FirstHasNoListedParent(g, list, e, m);
      } else {
        FirstOwnsItsEdges(g, list, e, m);
      }
    }
    RefreshFrame(g, h, perms, list[1..], e);
  }

  lemma FirstStaysConsistent(g: Graph, h: Hooks, perms: Assignment, list: seq<Node>)
    requires g.Valid() && RefreshList(g, list) && Covers(perms, g) && list != []
    requires Refresh(g, h, perms, list).Some?
    ensures Consistent(g, h, Refresh(g, h, perms, list).value, list[0])
    ensures NodeCumulative(g, Refresh(g, h, perms, list).value, list[0]) == NodeCumulative(g, perms, list[0])
  {
    TailIsList(g, list);
    var n, first, final := list[0], Forward(g, h, perms, list[0]), Refresh(g, h, perms, list).value;
    forall e | e in g.parents[n] || e in g.children[n] ensures final[e] == first[e] {
      FirstIsSettled(g, h, first, list, e);
    }
    forall e | e in g.parents[n] ensures first[e] == perms[e] {
      FirstHasNoListedParent(g, list, e, n);
    }
    SameParents(g, h, perms, first, n);
    ConsistentFrame(g, h, first, final, n);
    ForwardConsistent(g, h, perms, n);
  }

  lemma ForwardConsistent(g: Graph, h: Hooks, perms: Assignment, n: Node)
    requires Covers(perms, g) && n in g.children && RefreshNode(g, h, perms, n).Some?
    requires NodeCumulative(g, Forward(g, h, perms, n), n) == NodeCumulative(g, perms, n)
    requires NoConflict(Forward(g, h, perms, n), g.parents[n]) == NoConflict(perms, g.parents[n])
    ensures Consistent(g, h, Forward(g, h, perms, n), n)
  {
  }

  /** A consistent subgraph is a fixed point of the refresh. */
  lemma {:induction false} RefreshOfConsistent(g: Graph, h: Hooks, perms: Assignment, list: seq<Node>)
    requires RefreshList(g, list) && Covers(perms, g)
    requires forall n :: n in list ==> Consistent(g, h, perms, n)
    ensures Refresh(g, h, perms, list) == Some(perms)
  {
    if list != [] {
      TailIsList(g, list);
      assert Consistent(g, h, perms, list[0]);
      assert Forward(g, h, perms, list[0]) == perms;
      RefreshOfConsistent(g, h, perms, list[1..]);
    }
  }

  // ------------------------------------------------------------ what a refresh looks for

  ghost predicate Rewritten(g: Graph, h: Hooks, nodes: set<Node>, e: EdgeId) {
    exists n :: n in nodes && n in g.children && Forwards(h, n) && e in g.children[n]
  }

  /** The permissions q are consistent at the nodes, and those the nodes' drivers do not compute are the given ones. */
  ghost predicate Solves(g: Graph, h: Hooks, perms: Assignment, nodes: set<Node>, q: Assignment) {
    && Covers(q, g) && q.Keys == perms.Keys
    && (forall e :: e in perms && !Rewritten(g, h, nodes, e) ==> q[e] == perms[e])
    && (forall n :: n in nodes ==> n in g.children && Consistent(g, h, q, n))
  }

  /** The first node of the list finds its parents' edges as they are in a solution. */
  lemma FirstParents(g: Graph, h: Hooks, perms: Assignment, list: seq<Node>, q: Assignment, e: EdgeId)
    requires g.Valid() && RefreshList(g, list) && Covers(perms, g) && list != [] && e in g.parents[list[0]]
    requires Solves(g, h, perms, Elements(list), q)
    ensures q[e] == perms[e]
  {
    forall m | m in Elements(list) ensures e !in g.children[m] {
      FirstHasNoListedParent(g, list, e, m);
    }
    assert !Rewritten(g, h, Elements(list), e);
  }

  /** Once the first node has been refreshed, the solution is one for the others. */
  lemma RestSolves(g: Graph, h: Hooks, perms: Assignment, list: seq<Node>, q: Assignment)
    requires g.Valid() && RefreshList(g, list) && Covers(perms, g) && list != []
    requires Solves(g, h, perms, Elements(list), q) &&
             NodeCumulative(g, perms, list[0]) == NodeCumulative(g, q, list[0])
    ensures Solves(g, h, Forward(g, h, perms, list[0]), Elements(list[1..]), q)
  {
    var n, first, rest := list[0], Forward(g, h, perms, list[0]), Elements(list[1..]);
    assert Consistent(g, h, q, n);
    forall e | e in perms && !Rewritten(g, h, rest, e) ensures q[e] == first[e] {
      if Rewritten(g, h, Elements(list), e) {
        var m :| m in Elements(list) && Forwards(h, m) && e in g.children[m];
        assert m == n || m in rest;
      }
    }
  }

  /** A refresh finds the solution if there is one: it never refuses without need, and there is only one. */
  lemma {:induction false} RefreshFinds(g: Graph, h: Hooks, perms: Assignment, list: seq<Node>, q: Assignment)
    requires g.Valid() && RefreshList(g, list) && Covers(perms, g) && Solves(g, h, perms, Elements(list), q)
    ensures Refresh(g, h, perms, list) == Some(q)
  {
    if list == [] {
      assert forall e :: e in perms ==> !Rewritten(g, h, Elements(list), e);
      assert q == perms;
    } else {
      var n := list[0];
      TailIsList(g, list);
      assert n in Elements(list);
      forall e | e in g.parents[n] ensures q[e] == perms[e] {
        FirstParents(g, h, perms, list, q, e);
      }
      SameParents(g, h, perms, q, n);
      RestSolves(g, h, perms, list, q);
      RefreshFinds(g, h, Forward(g, h, perms, n), list[1..], q);
    }
  }

  lemma SameParents(g: Graph, h: Hooks, p: Assignment, q: Assignment, n: Node)
    requires Covers(p, g) && Covers(q, g) && n in g.children && forall e :: e in g.parents[n] ==> p[e] == q[e]
    ensures NodeCumulative(g, p, n) == NodeCumulative(g, q, n)
    ensures NoConflict(p, g.parents[n]) == NoConflict(q, g.parents[n])
  {
    var c, c' := NodeCumulative(g, p, n), NodeCumulative(g, q, n);
    assert c.perm == c'.perm && c.shared == c'.shared;
  }

  lemma RefreshSolves(g: Graph, h: Hooks, perms: Assignment, list: seq<Node>)
    requires g.Valid() && RefreshList(g, list) && Covers(perms, g) && Refresh(g, h, perms, list).Some?
    ensures Solves(g, h, perms, Elements(list), Refresh(g, h, perms, list).value)
  {
    var q := Refresh(g, h, perms, list).value;
    forall e | e in perms && !Rewritten(g, h, Elements(list), e) ensures q[e] == perms[e] {
      RefreshFrame(g, h, perms, list, e);
    }
    forall n | n in list ensures Consistent(g, h, q, n) {
      RefreshConsistent(g, h, perms, list, n);
    }
  }

  /** So a refresh succeeds exactly when there is a solution, in whatever order it visits the nodes. */
  lemma RefreshIffSolvable(g: Graph, h: Hooks, perms: Assignment, list: seq<Node>)
    requires g.Valid() && RefreshList(g, list) && Covers(perms, g)
    ensures Refresh(g, h, perms, list).Some? <==> exists q :: Solves(g, h, perms, Elements(list), q)
  {
    if Refresh(g, h, perms, list).Some? {
      RefreshSolves(g, h, perms, list);
    }
    if q :| Solves(g, h, perms, Elements(list), q) {
      RefreshFinds(g, h, perms, list, q);
    }
  }
}
