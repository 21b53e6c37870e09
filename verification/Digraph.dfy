/**
 Directed graphs as the block layer sees them: every node with the set of nodes its
 children lists point at.  Paths, reachability and acyclicity, and how they behave when
 arrows are added, dropped or redirected.
 */
module Digraph {

  type Node = nat
  type EdgeId = nat
  type Digraph = map<Node, set<Node>>

  /** Every arrow ends at a node of the graph. */
  ghost predicate Closed(d: Digraph) {
    forall u, v :: u in d && v in d[u] ==> v in d
  }

  predicate Arrow(d: Digraph, u: Node, v: Node) {
    u in d && v in d[u]
  }

  ghost predicate IsPath(d: Digraph, p: seq<Node>) {
    && |p| > 0
    && forall i :: 0 <= i < |p| - 1 ==> Arrow(d, p[i], p[i + 1])
  }

  ghost predicate PathFromTo(d: Digraph, p: seq<Node>, u: Node, v: Node) {
    IsPath(d, p) && p[0] == u && p[|p| - 1] == v
  }

  /** v is u or can be reached from u along arrows. */
  ghost predicate Reach(d: Digraph, u: Node, v: Node) {
    exists p :: PathFromTo(d, p, u, v)
  }

  ghost predicate Acyclic(d: Digraph) {
    forall u, v :: Arrow(d, u, v) ==> !Reach(d, v, u)
  }

  lemma ReachRefl(d: Digraph, u: Node)
    ensures Reach(d, u, u)
  {
    assert PathFromTo(d, [u], u, u);
  }

  lemma ReachTrans(d: Digraph, u: Node, v: Node, w: Node)
    requires Reach(d, u, v) && Reach(d, v, w)
    ensures Reach(d, u, w)
  {
    var p :| PathFromTo(d, p, u, v);
    var q :| PathFromTo(d, q, v, w);
    var r := p + q[1..];
    forall i | 0 <= i < |r| - 1 ensures Arrow(d, r[i], r[i + 1]) {
      if i < |p| - 1 {
        assert Arrow(d, p[i], p[i + 1]);
      } else {
        assert Arrow(d, q[i - |p| + 1], q[i - |p| + 2]);
      }
    }
    assert PathFromTo(d, r, u, w);
  }

  lemma ReachArrow(d: Digraph, u: Node, v: Node)
    requires Arrow(d, u, v)
    ensures Reach(d, u, v)
  {
    assert PathFromTo(d, [u, v], u, v);
  }

  /** The first arrow of a path that goes somewhere else. */
  lemma ReachFirst(d: Digraph, u: Node, w: Node) returns (v: Node)
    requires Reach(d, u, w) && u != w
    ensures Arrow(d, u, v) && Reach(d, v, w)
  {
    var p :| PathFromTo(d, p, u, w);
    v := p[1];
    assert Arrow(d, p[0], p[0 + 1]);
    var q := p[1..];
    forall i | 0 <= i < |q| - 1 ensures Arrow(d, q[i], q[i + 1]) {
      assert Arrow(d, p[i + 1], p[i + 1 + 1]);
    }
    assert PathFromTo(d, q, v, w);
  }

  lemma ReachStaysIn(d: Digraph, u: Node, v: Node, within: set<Node>)
    requires Reach(d, u, v) && u in within
    requires forall x, y :: x in within && Arrow(d, x, y) ==> y in within
    ensures v in within
  {
    var p :| PathFromTo(d, p, u, v);
    var i := 0;
    while i < |p| - 1
      invariant 0 <= i < |p| && p[i] in within
    {
      assert Arrow(d, p[i], p[i + 1]);
      i := i + 1;
    }
  }

  /** The nodes that can be reached from u, u included when it is a node. */
  ghost function Below(d: Digraph, u: Node): (r: set<Node>)
    ensures forall v :: v in r <==> v in d && Reach(d, u, v)
  {
    set v | v in d && Reach(d, u, v)
  }

  /** Going down an arrow of an acyclic graph leaves fewer nodes below. */
  lemma BelowShrinks(d: Digraph, u: Node, v: Node)
    requires Acyclic(d) && Arrow(d, u, v)
    ensures Below(d, v) < Below(d, u)
  {
    ReachArrow(d, u, v);
    ReachRefl(d, u);
    forall w | w in Below(d, v) ensures w in Below(d, u) {
      ReachTrans(d, u, v, w);
    }
    assert u in Below(d, u) && u !in Below(d, v);
  }

  // ------------------------------------------------------------ changing arrows

  /** d' has no arrow that d does not have. */
  ghost predicate SubArrows(d': Digraph, d: Digraph) {
    forall u, v :: Arrow(d', u, v) ==> Arrow(d, u, v)
  }

  lemma SubReach(d': Digraph, d: Digraph, u: Node, v: Node)
    requires SubArrows(d', d) && Reach(d', u, v)
    ensures Reach(d, u, v)
  {
    var p :| PathFromTo(d', p, u, v);
    forall i | 0 <= i < |p| - 1 ensures Arrow(d, p[i], p[i + 1]) {
      assert Arrow(d', p[i], p[i + 1]);
    }
    assert PathFromTo(d, p, u, v);
  }

  lemma SubAcyclic(d': Digraph, d: Digraph)
    requires SubArrows(d', d) && Acyclic(d)
    ensures Acyclic(d')
  {
    forall u, v | Arrow(d', u, v) ensures !Reach(d', v, u) {
      if Reach(d', v, u) {
        SubReach(d', d, v, u);
      }
    }
  }

  /** Every arrow of d' is one of d or goes from a node of sources to the node to. */
  ghost predicate Redirected(d': Digraph, d: Digraph, sources: set<Node>, to: Node) {
    forall u, v :: Arrow(d', u, v) ==> Arrow(d, u, v) || (u in sources && v == to)
  }

  /**
   A path of d' either is a path of d or passes through `to` after a source: what it
   reaches is then below `to` already in d, when no source is.
   */
  lemma {:induction false} RedirectedPath(d': Digraph, d: Digraph, sources: set<Node>, to: Node, p: seq<Node>)
    requires Redirected(d', d, sources, to) && IsPath(d', p)
    requires forall x :: x in sources ==> !Reach(d, to, x)
    ensures Reach(d, p[0], p[|p| - 1]) || Reach(d, to, p[|p| - 1])
    decreases |p|
  {
    if |p| == 1 {
      ReachRefl(d, p[0]);
    } else {
      var q := p[..|p| - 1];
      forall i | 0 <= i < |q| - 1 ensures Arrow(d', q[i], q[i + 1]) {
        assert Arrow(d', p[i], p[i + 1]);
      }
      RedirectedPath(d', d, sources, to, q);
      var a, b := p[|p| - 2], p[|p| - 1];
      assert Arrow(d', p[|p| - 2], p[|p| - 2 + 1]);
      if Arrow(d, a, b) {
        ReachArrow(d, a, b);
        if Reach(d, p[0], a) {
          ReachTrans(d, p[0], a, b);
        } else {
          ReachTrans(d, to, a, b);
        }
      } else {
        ReachRefl(d, to);
      }
    }
  }

  /** Pointing arrows at `to` keeps the graph acyclic when no node they start from is below `to`. */
  lemma RedirectAcyclic(d': Digraph, d: Digraph, sources: set<Node>, to: Node)
    requires Acyclic(d) && Redirected(d', d, sources, to)
    requires forall x :: x in sources ==> !Reach(d, to, x)
    ensures Acyclic(d')
  {
    forall u, v | Arrow(d', u, v) ensures !Reach(d', v, u) {
      if Reach(d', v, u) {
        var p :| PathFromTo(d', p, v, u);
        RedirectedPath(d', d, sources, to, p);
        if Arrow(d, u, v) {
          ReachArrow(d, u, v);
          ReachTrans(d, to, u, v);
          ToReachesNoSource(d', d, sources, to, p);
        }
      }
    }
  }

  /** A path of d' that ends below `to` without being a path of d would close a cycle of d. */
  lemma {:induction false} ToReachesNoSource(d': Digraph, d: Digraph, sources: set<Node>, to: Node, p: seq<Node>)
    requires Redirected(d', d, sources, to) && IsPath(d', p)
    requires forall x :: x in sources ==> !Reach(d, to, x)
    requires Reach(d, to, p[0])
    ensures Reach(d, p[0], p[|p| - 1])
    decreases |p|
  {
    if |p| == 1 {
      ReachRefl(d, p[0]);
    } else {
      assert Arrow(d', p[0], p[0 + 1]);
      ReachArrow(d, p[0], p[1]);
      ReachTrans(d, to, p[0], p[1]);
      var q := p[1..];
      forall i | 0 <= i < |q| - 1 ensures Arrow(d', q[i], q[i + 1]) {
        assert Arrow(d', p[i + 1], p[i + 1 + 1]);
      }
      ToReachesNoSource(d', d, sources, to, q);
      ReachTrans(d, p[0], p[1], p[|p| - 1]);
    }
  }

  /** Arrows that start outside the subtree of u do not matter to what u reaches. */
  lemma {:induction false} SameSubtree(d': Digraph, d: Digraph, u: Node, p: seq<Node>)
    requires forall x, y :: Reach(d, u, x) ==> (Arrow(d, x, y) <==> Arrow(d', x, y))
    requires IsPath(d', p) && p[0] == u
    ensures Reach(d, u, p[|p| - 1])
    decreases |p|
  {
    if |p| == 1 {
      ReachRefl(d, u);
    } else {
      var q := p[..|p| - 1];
      forall i | 0 <= i < |q| - 1 ensures Arrow(d', q[i], q[i + 1]) {
        assert Arrow(d', p[i], p[i + 1]);
      }
      SameSubtree(d', d, u, q);
      var a, b := p[|p| - 2], p[|p| - 1];
      assert Arrow(d', p[|p| - 2], p[|p| - 2 + 1]);
      ReachArrow(d, a, b);
      ReachTrans(d, u, a, b);
    }
  }

  /** The same, the other way: a path of d from u is one of d'. */
  lemma SubtreeKept(d': Digraph, d: Digraph, u: Node, x: Node)
    requires forall x, y :: Reach(d, u, x) ==> (Arrow(d, x, y) <==> Arrow(d', x, y))
    ensures Reach(d', u, x) <==> Reach(d, u, x)
  {
    if Reach(d', u, x) {
      var p :| PathFromTo(d', p, u, x);
      SameSubtree(d', d, u, p);
    }
    if Reach(d, u, x) {
      var p :| PathFromTo(d, p, u, x);
      forall i | 0 <= i < |p| - 1 ensures Arrow(d', p[i], p[i + 1]) {
        PrefixReach(d, p, i);
        assert Arrow(d, p[i], p[i + 1]);
      }
      assert PathFromTo(d', p, u, x);
    }
  }

  lemma PrefixReach(d: Digraph, p: seq<Node>, i: nat)
    requires IsPath(d, p) && i < |p|
    ensures Reach(d, p[0], p[i])
  {
    var q := p[..i + 1];
    forall j | 0 <= j < |q| - 1 ensures Arrow(d, q[j], q[j + 1]) {
      assert Arrow(d, p[j], p[j + 1]);
    }
    assert PathFromTo(d, q, p[0], p[i]);
  }
}
