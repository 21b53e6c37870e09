/**
 bs->inherits_from: which node a node takes its options from.  Following it always comes to
 an end, and taking a child away clears it below, where it named the former parent.
 */
module Inheritance {
  import opened Options
  import opened Digraph
  import opened GraphEdits
  import opened GraphOperations

  type Inherits = map<Node, Option<Node>>

  ghost function Upward(inherits: Inherits): (d: Digraph)
    ensures d.Keys == inherits.Keys
    ensures forall u: Node, v: Node :: Arrow(d, u, v) <==> u in inherits && inherits[u] == Some(v)
  {
    map n | n in inherits :: if inherits[n].Some? then {inherits[n].value} else {}
  }

  /** Every node inherits from a node or from none, and never from itself in the end. */
  ghost predicate Grounded(inherits: Inherits) {
    Acyclic(Upward(inherits)) && Closed(Upward(inherits))
  }

  /** bdrv_inherits_from_recursive */
  method InheritsFromRecursive(inherits: Inherits, child: Option<Node>, parent: Node) returns (ret: bool)
    requires Grounded(inherits) && (child.Some? ==> child.value in inherits)
    ensures ret <==> child.Some? && Reach(Upward(inherits), child.value, parent)
  {
    ghost var d := Upward(inherits);
    var c := child;
    while c.Some? && c.value != parent
      invariant c.Some? ==> c.value in inherits
      invariant child.Some? && Reach(d, child.value, parent) <==> c.Some? && Reach(d, c.value, parent)
      decreases if c.Some? then 1 + |Below(d, c.value)| else 0
    {
      StepUp(inherits, c.value, parent);
      c := inherits[c.value];
    }
    if c.Some? {
      ReachRefl(d, parent);
    }
    ret := c.Some?;
  }

  lemma StepUp(inherits: Inherits, c: Node, parent: Node)
    requires Grounded(inherits) && c in inherits && c != parent
    ensures Reach(Upward(inherits), c, parent) <==>
              inherits[c].Some? && Reach(Upward(inherits), inherits[c].value, parent)
    ensures inherits[c].Some? ==>
              inherits[c].value in inherits &&
              |Below(Upward(inherits), inherits[c].value)| < |Below(Upward(inherits), c)|
  {
    var d := Upward(inherits);
    if Reach(d, c, parent) {
      var v := ReachFirst(d, c, parent);
    }
    if inherits[c].Some? {
      assert Arrow(d, c, inherits[c].value);
      BelowIsSmaller(d, c, inherits[c].value);
      ReachArrow(d, c, inherits[c].value);
      if Reach(d, inherits[c].value, parent) {
        ReachTrans(d, c, inherits[c].value, parent);
      }
    }
  }

  // ------------------------------------------------------------ bdrv_unset_inherits_from

  /** Another child edge of root than this one points at n. */
  predicate OtherChild(s: Shape, root: Node, child: EdgeId, n: Node) {
    exists e :: e in ChildEdges(s, root) && e != child && s.edges[e].target == Some(n)
  }

  /** inherits with the nodes of a region that inherit from root, and that root has no other child edge to, cleared. */
  ghost function Cleared(s: Shape, inherits: Inherits, root: Node, child: EdgeId, region: set<Node>): Inherits {
    map n | n in inherits ::
      if n in region && inherits[n] == Some(root) && !OtherChild(s, root, child, n) then None else inherits[n]
  }

  lemma ClearedTwice(s: Shape, inherits: Inherits, root: Node, child: EdgeId, a: set<Node>, b: set<Node>)
    ensures Cleared(s, Cleared(s, inherits, root, child, a), root, child, b) == Cleared(s, inherits, root, child, a + b)
  {
  }

  lemma ClearedOne(s: Shape, inherits: Inherits, root: Node, child: EdgeId, n: Node)
    requires n in inherits
    ensures Cleared(s, inherits, root, child, {n}) ==
            if inherits[n] == Some(root) && !OtherChild(s, root, child, n) then inherits[n := None] else inherits
  {
  }

  /** Further down, it makes no difference which edge of root was taken away, nor which edge the search came by. */
  lemma OtherBelow(s: Shape, root: Node, child: EdgeId, c: EdgeId, n: Node)
    requires Total(s) && Acyclic(Arrows(s)) && child in ChildEdges(s, root) && Attached(s, c) &&
             s.edges[c].target == Some(n)
    requires c == child ||
             (s.edges[c].owner.Some? && Reach(Arrows(s), s.edges[child].target.value, s.edges[c].owner.value))
    ensures OtherChild(s, root, c, n) <==> OtherChild(s, root, child, n)
  {
    if c != child {
      var d, below, owner := Arrows(s), s.edges[child].target.value, s.edges[c].owner.value;
      EdgeArrow(s, child);
      EdgeArrow(s, c);
      assert owner != root && n != below;
    }
  }

  /** A node, with what is below its children, is all that is below it. */
  lemma BelowCollected(s: Shape, n: Node, region: set<Node>)
    requires Total(s) && n in s.inherits && n in region && region <= Below(Arrows(s), n)
    requires forall e :: e in ChildEdges(s, n) ==> Below(Arrows(s), s.edges[e].target.value) <= region
    ensures region == Below(Arrows(s), n)
  {
    forall x | x in Below(Arrows(s), n) ensures x in region {
      if x != n {
        var v := ReachFirst(Arrows(s), n, x);
        var e := ArrowEdge(s, n, v);
        assert e in ChildEdges(s, n);
      }
    }
  }

  // ------------------------------------------------------------ what stays grounded

  lemma ClearedGrounded(s: Shape, inherits: Inherits, root: Node, child: EdgeId, region: set<Node>)
    requires Grounded(inherits)
    ensures Grounded(Cleared(s, inherits, root, child, region))
    ensures SubArrows(Upward(Cleared(s, inherits, root, child, region)), Upward(inherits))
  {
    SubAcyclic(Upward(Cleared(s, inherits, root, child, region)), Upward(inherits));
  }

  /** Nothing that n inherits from inherits from n. */
  lemma NotBack(inherits: Inherits, n: Node, from: Node)
    requires Grounded(inherits) && n != from && Reach(Upward(inherits), n, from)
    ensures !Reach(Upward(inherits), from, n)
  {
    var d := Upward(inherits);
    var v := ReachFirst(d, n, from);
    if Reach(d, from, n) {
      ReachTrans(d, v, from, n);
    }
  }

  lemma UpwardUpdate(inherits: Inherits, n: Node, from: Node)
    requires n in inherits && from in inherits
    ensures Redirected(Upward(inherits[n := Some(from)]), Upward(inherits), {n}, from)
    ensures Closed(Upward(inherits)) ==> Closed(Upward(inherits[n := Some(from)]))
  {
  }

  /** Inheriting directly from what it inherited from in the end. */
  lemma ShortcutGrounded(inherits: Inherits, fewer: Inherits, n: Node, from: Node)
    requires Grounded(inherits) && Grounded(fewer) && SubArrows(Upward(fewer), Upward(inherits)) &&
             fewer.Keys == inherits.Keys
    requires n in inherits && from in inherits && n != from && Reach(Upward(inherits), n, from)
    ensures Grounded(fewer[n := Some(from)])
  {
    NotBack(inherits, n, from);
    UpwardUpdate(fewer, n, from);
    if Reach(Upward(fewer), from, n) {
      SubReach(Upward(fewer), Upward(inherits), from, n);
    }
    RedirectAcyclic(Upward(fewer[n := Some(from)]), Upward(fewer), {n}, from);
  }
}
