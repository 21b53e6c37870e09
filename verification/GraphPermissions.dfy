/**
 The permission refresh on a shape: the children and parents lists the refresh goes over are
 those of the shape, and what it leaves does not depend on their order.
 */
module GraphPermissions {
  import opened Options
  import opened Sequences
  import opened Digraph
  import opened Permissions
  import opened GraphEdits
  import opened GraphOperations

  function AttachedEdges(s: Shape): map<EdgeId, Edge> {
    map e | e in s.edges && s.edges[e].target.Some? :: Edge(s.edges[e].owner, s.edges[e].target.value)
  }

  /** bs->children and bs->parents of all nodes, as lists in some order. */
  function GraphOf(s: Shape): Graph {
    Graph(map n | n in s.inherits :: ListOf(ChildEdges(s, n)), map n | n in s.inherits :: ListOf(Pointing(s, n)),
          AttachedEdges(s))
  }

  function PermsOf(s: Shape): Assignment {
    map e | e in s.edges && s.edges[e].target.Some? :: s.edges[e].perms
  }

  lemma GraphOfValid(s: Shape)
    requires Total(s)
    ensures GraphOf(s).Valid() && Covers(PermsOf(s), GraphOf(s))
  {
    var g := GraphOf(s);
    assert ParentsOk(g.parents, g.edges);
    assert ChildrenOk(g.children, g.edges);
  }

  lemma DownOfGraph(s: Shape)
    requires Total(s)
    ensures Down(GraphOf(s)) == Arrows(s)
  {
    forall n | n in s.inherits ensures Down(GraphOf(s))[n] == Arrows(s)[n] {
      ChildrenOfGraph(s, n);
    }
  }

  lemma ChildrenOfGraph(s: Shape, n: Node)
    requires n in s.inherits
    ensures Down(GraphOf(s))[n] == Arrows(s)[n]
  {
    var g, edges := GraphOf(s), ChildEdges(s, n);
    forall v | v in Down(g)[n] ensures v in Arrows(s)[n] {
      var e :| e in g.children[n] && e in g.edges && g.edges[e].target == v;
      assert e in edges && s.edges[e].target.value == v;
    }
    forall v | v in Arrows(s)[n] ensures v in Down(g)[n] {
      var e :| e in edges && s.edges[e].target.value == v;
      assert e in g.children[n] && e in g.edges;
    }
  }

  /** The same attached edges, up to their permissions. */
  ghost predicate SameAttached(s: Shape, r: Shape) {
    && s.inherits.Keys == r.inherits.Keys
    && (forall e :: Attached(s, e) <==> Attached(r, e))
    && (forall e :: Attached(s, e) ==> r.edges[e].(perms := s.edges[e].perms) == s.edges[e])
  }

  lemma SameLists(s: Shape, r: Shape, n: Node)
    requires SameAttached(s, r)
    ensures ChildEdges(s, n) == ChildEdges(r, n) && Pointing(s, n) == Pointing(r, n)
  {
    forall e ensures (e in ChildEdges(s, n) <==> e in ChildEdges(r, n)) &&
                     (e in Pointing(s, n) <==> e in Pointing(r, n)) {
      assert Attached(s, e) <==> Attached(r, e);
    }
  }

  lemma SameEnds(s: Shape, r: Shape)
    requires SameAttached(s, r)
    ensures AttachedEdges(s) == AttachedEdges(r)
  {
    forall e ensures e in AttachedEdges(s) <==> e in AttachedEdges(r) {
      assert Attached(s, e) <==> Attached(r, e);
    }
  }

  lemma SameGraph(s: Shape, r: Shape)
    requires SameAttached(s, r)
    ensures GraphOf(s) == GraphOf(r)
  {
    forall n ensures ChildEdges(s, n) == ChildEdges(r, n) && Pointing(s, n) == Pointing(r, n) {
      SameLists(s, r, n);
    }
    SameEnds(s, r);
    assert GraphOf(s).children == GraphOf(r).children && GraphOf(s).parents == GraphOf(r).parents;
  }

  /** The same attached edges with the same permissions. */
  ghost predicate SameEdges(s: Shape, r: Shape) {
    && s.inherits.Keys == r.inherits.Keys
    && forall e :: (Attached(s, e) <==> Attached(r, e)) && (Attached(s, e) ==> r.edges[e] == s.edges[e])
  }

  lemma SamePermissions(s: Shape, r: Shape)
    requires SameEdges(s, r)
    ensures SameAttached(s, r) && PermsOf(s) == PermsOf(r)
  {
    forall e ensures e in PermsOf(s) <==> e in PermsOf(r) {
      assert Attached(s, e) <==> Attached(r, e);
    }
  }

  // ------------------------------------------------------------ what a refresh of a shape does

  /** The nodes below any of the roots. */
  ghost function BelowAll(d: Digraph, roots: seq<Node>): set<Node> {
    set n | n in d && exists r :: r in roots && Reach(d, r, n)
  }

  ghost predicate AreNodes(s: Shape, roots: seq<Node>) {
    forall n :: n in roots ==> n in s.inherits
  }

  lemma OneNode(s: Shape, n: Node)
    requires n in s.inherits
    ensures AreNodes(s, [n])
  {
  }

  lemma TwoNodes(s: Shape, n: Node, m: Node)
    requires n in s.inherits && m in s.inherits
    ensures AreNodes(s, [n, m])
  {
  }

  /** The permissions of the attached edges of r solve what a refresh of s below the roots looks for. */
  ghost predicate Refreshes(s: Shape, h: Hooks, roots: seq<Node>, q: Assignment) {
    Solves(GraphOf(s), h, PermsOf(s), BelowAll(Arrows(s), roots), q)
  }

  /** There are permissions a refresh can find. */
  ghost predicate Refreshable(s: Shape, h: Hooks, roots: seq<Node>) {
    exists q :: Refreshes(s, h, roots, q)
  }

  /** Every node below the roots is consistent. */
  ghost predicate AllConsistent(s: Shape, h: Hooks, roots: seq<Node>) {
    && Covers(PermsOf(s), GraphOf(s))
    && forall n :: n in BelowAll(Arrows(s), roots) ==>
         n in GraphOf(s).children && Consistent(GraphOf(s), h, PermsOf(s), n)
  }

  /** The refresh, in whatever order it visits the nodes below the roots. */
  lemma RefreshIs(s: Shape, h: Hooks, roots: seq<Node>, list: seq<Node>)
    requires Total(s) && RefreshList(GraphOf(s), list) && Elements(list) == BelowAll(Arrows(s), roots)
    ensures GraphOf(s).Valid() && Covers(PermsOf(s), GraphOf(s))
    ensures var r := Refresh(GraphOf(s), h, PermsOf(s), list);
            (r.Some? <==> Refreshable(s, h, roots)) && (r.Some? ==> Refreshes(s, h, roots, r.value))
  {
    var g, perms := GraphOf(s), PermsOf(s);
    GraphOfValid(s);
    RefreshIffSolvable(g, h, perms, list);
    if q :| Refreshes(s, h, roots, q) {
      assert Solves(g, h, perms, Elements(list), q);
    }
    if Refresh(g, h, perms, list).Some? {
      RefreshSolves(g, h, perms, list);
      assert Refreshes(s, h, roots, Refresh(g, h, perms, list).value);
    }
  }

  /** A shape whose permissions have all been written. */
  lemma PermsAre(s: Shape, r: Shape, q: Assignment)
    requires SameAttached(s, r) && q.Keys == PermsOf(s).Keys
    requires forall e :: e in q ==> Attached(r, e) && r.edges[e].perms == q[e]
    ensures PermsOf(r) == q
  {
    forall e ensures e in PermsOf(r) <==> e in q {
      assert Attached(s, e) <==> Attached(r, e);
    }
  }

  /** This depends on the attached edges only. */
  lemma SameRefresh(s: Shape, r: Shape, h: Hooks, roots: seq<Node>)
    requires SameEdges(s, r) && Total(s) && Total(r)
    ensures Refreshable(s, h, roots) == Refreshable(r, h, roots)
    ensures forall q :: Refreshes(s, h, roots, q) == Refreshes(r, h, roots, q)
  {
    SamePermissions(s, r);
    SameGraph(s, r);
    DownOfGraph(s);
    DownOfGraph(r);
    forall q ensures Refreshes(s, h, roots, q) == Refreshes(r, h, roots, q) {
    }
  }

  /** What a refresh has found is consistent. */
  lemma RefreshedIsConsistent(s: Shape, r: Shape, h: Hooks, roots: seq<Node>)
    requires SameAttached(s, r) && Total(s) && Total(r) && Refreshes(s, h, roots, PermsOf(r))
    ensures AllConsistent(r, h, roots)
  {
    SameGraph(s, r);
    DownOfGraph(s);
    DownOfGraph(r);
  }
}
