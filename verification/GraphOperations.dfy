/**
 The graph-changing operations of block.c on top of transactional edits: the cycle check
 before attaching, the search that decides which parents move to a new node, and
 bdrv_replace_node, bdrv_append, bdrv_set_backing_hd and bdrv_drop_filter.
 */
module GraphOperations {
  import opened Options
  import opened Sequences
  import opened Digraph
  import opened Permissions
  import opened GraphEdits

  /** The edges in bs->children. */
  function ChildEdges(s: Shape, n: Node): set<EdgeId> {
    set e | e in s.edges && s.edges[e].owner == Some(n) && s.edges[e].target.Some?
  }

  /** Every node with the nodes its children point at. */
  function Arrows(s: Shape): (d: Digraph)
    ensures d.Keys == s.inherits.Keys
    ensures forall u: Node, v: Node :: Arrow(d, u, v) <==>
                           u in s.inherits &&
                           exists e :: e in s.edges && s.edges[e].owner == Some(u) && s.edges[e].target == Some(v)
  {
    map n | n in s.inherits :: set e | e in ChildEdges(s, n) :: s.edges[e].target.value
  }

  lemma EdgeArrow(s: Shape, e: EdgeId)
    requires Total(s) && e in s.edges && s.edges[e].owner.Some? && s.edges[e].target.Some?
    ensures Arrow(Arrows(s), s.edges[e].owner.value, s.edges[e].target.value)
  {
  }

  lemma ArrowsClosed(s: Shape)
    requires Total(s)
    ensures Closed(Arrows(s))
  {
  }

  // ------------------------------------------------------------ bdrv_recurse_has_child

  /** Can child be reached from bs by going down? */
  predicate RecurseHasChild(d: Digraph, bs: Node, child: Node)
    requires Acyclic(d) && Closed(d) && bs in d
    decreases |Below(d, bs)|
  {
    bs == child ||
    exists c :: c in d[bs] && (BelowIsSmaller(d, bs, c); RecurseHasChild(d, c, child))
  }

  lemma BelowIsSmaller(d: Digraph, u: Node, v: Node)
    requires Acyclic(d) && Arrow(d, u, v)
    ensures |Below(d, v)| < |Below(d, u)|
  {
    BelowShrinks(d, u, v);
    var a, b := Below(d, v), Below(d, u);
    assert b == a + (b - a);
    assert |b| == |a| + |b - a|;
    assert u in b - a by { ReachRefl(d, u); }
  }

  lemma {:induction false} HasChildIsReach(d: Digraph, bs: Node, child: Node)
    requires Acyclic(d) && Closed(d) && bs in d
    ensures RecurseHasChild(d, bs, child) <==> Reach(d, bs, child)
    decreases |Below(d, bs)|
  {
    forall c | c in d[bs] ensures RecurseHasChild(d, c, child) <==> Reach(d, c, child) {
      BelowIsSmaller(d, bs, c);
      HasChildIsReach(d, c, child);
    }
    if RecurseHasChild(d, bs, child) {
      if bs == child {
        ReachRefl(d, bs);
      } else {
        var c :| c in d[bs] && RecurseHasChild(d, c, child);
        ReachArrow(d, bs, c);
        ReachTrans(d, bs, c, child);
      }
    }
    if Reach(d, bs, child) && bs != child {
      var c := ReachFirst(d, bs, child);
    }
  }

  // ------------------------------------------------------------ should_update_child

  /** The edge is in the children list of a node in the subtree of `to`. */
  ghost predicate InSubtree(s: Shape, c: EdgeId, to: Node) {
    Attached(s, c) && s.edges[c].owner.Some? && Reach(Arrows(s), to, s.edges[c].owner.value)
  }

  /** Where the search stands: the found nodes are below `to`, and those off the queue are done. */
  ghost predicate Searching(s: Shape, c: EdgeId, to: Node, queue: seq<Node>, found: set<Node>, ret: bool) {
    && (forall v :: v in found ==> v in s.inherits && Reach(Arrows(s), to, v))
    && (forall v :: v in queue ==> v in found)
    && (!ret ==> InSubtree(s, c, to))
    && (ret ==> to in found)
    && (ret ==> forall v, e :: v in found && v !in queue && e in ChildEdges(s, v) ==>
                                 e != c && s.edges[e].target.value in found)
  }

  /** One turn of the search: looks at the children of v, in any order, until c is among them. */
  method VisitChildren(s: Shape, c: EdgeId, v: Node, queue: seq<Node>, found: set<Node>)
    returns (queue': seq<Node>, found': set<Node>, hit: bool)
    requires forall x :: x in queue ==> x in found
    ensures hit <==> c in ChildEdges(s, v)
    ensures found <= found' && forall x :: x in queue' <==> x in queue || (x in found' && x !in found)
    ensures forall x :: x in found' && x !in found ==> exists e :: e in ChildEdges(s, v) && s.edges[e].target.value == x
    ensures !hit ==> forall e :: e in ChildEdges(s, v) ==> s.edges[e].target.value in found'
    ensures found' == found ==> |queue'| == |queue|
  {
    queue', found', hit := queue, found, false;
    var todo := ChildEdges(s, v);
    while todo != {} && !hit
      invariant todo <= ChildEdges(s, v)
      invariant hit ==> c in ChildEdges(s, v)
      invariant !hit ==> c !in ChildEdges(s, v) - todo
      invariant found <= found' && forall x :: x in queue' <==> x in queue || (x in found' && x !in found)
      invariant forall x :: x in found' && x !in found ==>
                  exists e :: e in ChildEdges(s, v) && s.edges[e].target.value == x
      invariant forall e :: e in ChildEdges(s, v) - todo && !hit ==> s.edges[e].target.value in found'
      invariant found' == found ==> queue' == queue
      decreases |todo|
    {
      var e :| e in todo;
      todo := todo - {e};
      if e == c {
        hit := true;
      } else if s.edges[e].target.value !in found' {
        queue' := queue' + [s.edges[e].target.value];
        found' := found' + {s.edges[e].target.value};
      }
    }
  }

  /** The breadth-first search of should_update_child, for an edge whose class may move. */
  method ShouldUpdateChild(s: Shape, c: EdgeId, stay: bool, to: Node) returns (ret: bool)
    requires Total(s) && Attached(s, c) && to in s.inherits
    ensures ret <==> !stay && !InSubtree(s, c, to)
  {
    if stay {
      return false;
    }
    ret := true;
    var found: set<Node> := {to};
    var queue: seq<Node> := [to];
    ReachRefl(Arrows(s), to);
    while queue != []
      invariant Searching(s, c, to, queue, found, ret)
      decreases s.inherits.Keys - found, |queue|
    {
      ghost var before := found;
      var hit;
      var v := queue[0];
      queue, found, hit := VisitChildren(s, c, v, queue[1..], found);
      SearchGoesOn(s, c, to, v, queue, before, found);
      if hit {
        ret := false;
      }
    }
    if ret {
      SearchIsComplete(s, c, to, found);
    }
  }

  lemma SearchGoesOn(s: Shape, c: EdgeId, to: Node, v: Node, queue': seq<Node>, before: set<Node>, after: set<Node>)
    requires Total(s) && v in before && Reach(Arrows(s), to, v)
    requires forall x :: x in after && x !in before ==>
               exists e :: e in ChildEdges(s, v) && s.edges[e].target.value == x
    ensures forall x :: x in after && x !in before ==> x in s.inherits && Reach(Arrows(s), to, x)
    ensures c in ChildEdges(s, v) ==> InSubtree(s, c, to)
  {
    forall x | x in after && x !in before ensures x in s.inherits && Reach(Arrows(s), to, x) {
      var e :| e in ChildEdges(s, v) && s.edges[e].target.value == x;
      EdgeArrow(s, e);
      ReachArrow(Arrows(s), v, x);
      ReachTrans(Arrows(s), to, v, x);
    }
  }

  lemma SearchIsComplete(s: Shape, c: EdgeId, to: Node, found: set<Node>)
    requires Total(s) && Attached(s, c) && to in found
    requires forall v, e :: v in found && e in ChildEdges(s, v) ==> e != c && s.edges[e].target.value in found
    ensures !InSubtree(s, c, to)
  {
    if InSubtree(s, c, to) {
      var d, owner := Arrows(s), s.edges[c].owner.value;
      forall x, y | x in found && Arrow(d, x, y) ensures y in found {
        var e :| e in s.edges && s.edges[e].owner == Some(x) && s.edges[e].target == Some(y);
        assert e in ChildEdges(s, x);
      }
      assert c in ChildEdges(s, owner);
      ReachStaysIn(d, to, owner, found);
    }
  }

  // ------------------------------------------------------------ edits and cycles

  lemma ArrowEdge(s: Shape, u: Node, v: Node) returns (e: EdgeId)
    requires Arrow(Arrows(s), u, v)
    ensures e in s.edges && s.edges[e].owner == Some(u) && s.edges[e].target == Some(v)
  {
    e :| e in s.edges && s.edges[e].owner == Some(u) && s.edges[e].target == Some(v);
  }

  /** The same nodes are in the subtree of `to`. */
  ghost predicate SameBelow(s: Shape, r: Shape, to: Node) {
    forall x :: Reach(Arrows(r), to, x) <==> Reach(Arrows(s), to, x)
  }

  /** Pointing an edge outside the subtree of `to` at `to` closes no cycle and leaves that subtree alone. */
  lemma MoveKeepsAcyclic(s: Shape, r: Shape, c: EdgeId, to: Node)
    requires Total(s) && Acyclic(Arrows(s)) && Attached(s, c) && to in s.inherits && !InSubtree(s, c, to)
    requires r.edges == SetTarget(s, c, Some(to)) && r.inherits == s.inherits
    ensures Acyclic(Arrows(r)) && SameBelow(s, r, to)
  {
    var d, d' := Arrows(s), Arrows(r);
    var sources: set<Node> := if s.edges[c].owner.Some? then {s.edges[c].owner.value} else {};
    forall u, v | Arrow(d', u, v) ensures Arrow(d, u, v) || (u in sources && v == to) {
      var e := ArrowEdge(r, u, v);
    }
    RedirectAcyclic(d', d, sources, to);
    forall x, y | Reach(d, to, x) ensures Arrow(d, x, y) <==> Arrow(d', x, y) {
      if Arrow(d, x, y) {
        var e := ArrowEdge(s, x, y);
        assert e != c;
        assert r.edges[e] == s.edges[e];
      }
    }
    forall x ensures Reach(d', to, x) <==> Reach(d, to, x) {
      SubtreeKept(d', d, to, x);
    }
  }

  /** A new edge closes no cycle when its owner is not below its target. */
  lemma AttachKeepsAcyclic(s: Shape, r: Shape, e: EdgeId, c: Child)
    requires Acyclic(Arrows(s)) && e !in s.edges && c.target.Some?
    requires r.edges == s.edges[e := c] && r.inherits == s.inherits
    requires c.owner.Some? ==> !Reach(Arrows(s), c.target.value, c.owner.value)
    ensures Acyclic(Arrows(r))
  {
    var d, d' := Arrows(s), Arrows(r);
    var sources: set<Node> := if c.owner.Some? then {c.owner.value} else {};
    forall u, v | Arrow(d', u, v) ensures Arrow(d, u, v) || (u in sources && v == c.target.value) {
      var x := ArrowEdge(r, u, v);
    }
    RedirectAcyclic(d', d, sources, c.target.value);
  }

  /** The edges of r are edges of s, at the same place or empty. */
  ghost predicate NoNewEdges(s: Shape, r: Shape) {
    && r.inherits.Keys == s.inherits.Keys
    && forall e :: Attached(r, e) ==>
         e in s.edges && r.edges[e].owner == s.edges[e].owner && r.edges[e].target == s.edges[e].target
  }

  lemma DroppedIsFewer(s: Shape, r: Shape, c: EdgeId)
    requires c in s.edges && r.edges == SetTarget(s, c, None) && r.inherits == s.inherits
    ensures NoNewEdges(s, r)
  {
  }

  lemma FewerKeepAcyclic(s: Shape, r: Shape)
    requires Acyclic(Arrows(s)) && NoNewEdges(s, r)
    ensures Acyclic(Arrows(r))
  {
    forall u, v | Arrow(Arrows(r), u, v) ensures Arrow(Arrows(s), u, v) {
      var e := ArrowEdge(r, u, v);
      assert Attached(r, e);
    }
    SubAcyclic(Arrows(r), Arrows(s));
  }

  // ------------------------------------------------------------ states between edits

  /** The frozen edges are where they were. */
  ghost predicate FrozenKept(s: Shape, r: Shape, frozen: set<EdgeId>) {
    forall e :: e in frozen && e in s.edges ==>
                  e in r.edges && r.edges[e].owner == s.edges[e].owner && r.edges[e].slot == s.edges[e].slot &&
                  r.edges[e].target == s.edges[e].target
  }

  /** No frozen edge has been taken away, and no undoing has to retarget one. */
  ghost predicate Sealed(st: State, frozen: set<EdgeId>) {
    && (forall e :: e in frozen ==> e in st.shape.edges && Removed(e) !in st.log)
    && Thawed(st.log, frozen)
  }

  /** A good state in the middle of a transaction. */
  ghost predicate Editable(st: State, callers: map<Node, nat>, frozen: set<EdgeId>) {
    Good(st, callers) && RemovedOk(st) && Sealed(st, frozen)
  }

  /** The edits from st to r can be undone, keep frozen edges and close no cycle. */
  ghost predicate Advances(st: State, r: State, callers: map<Node, nat>, frozen: set<EdgeId>) {
    && Editable(r, callers, frozen) && Undone(r) == Undone(st)
    && r.shape.inherits.Keys == st.shape.inherits.Keys
    && FrozenKept(st.shape, r.shape, frozen)
    && (Acyclic(Arrows(st.shape)) ==> Acyclic(Arrows(r.shape)))
  }

  lemma ThawedMore(log: seq<Action>, a: Action, frozen: set<EdgeId>)
    requires Thawed(log, frozen) && forall e :: e in frozen ==> !Retargets(a, e)
    ensures Thawed(log + [a], frozen)
  {
  }

  /** What retargeting an edge that is neither frozen nor removed leaves alone. */
  lemma RetargetFrame(st: State, r: State, c: EdgeId, t: Option<Node>, frozen: set<EdgeId>)
    requires RemovedOk(st) && Sealed(st, frozen) && c in st.shape.edges && c !in frozen && Removed(c) !in st.log
    requires r.shape.edges == SetTarget(st.shape, c, t)
    requires r.log == st.log + [Replaced(c, st.shape.edges[c].target)]
    ensures RemovedOk(r) && FrozenKept(st.shape, r.shape, frozen) && Sealed(r, frozen)
  {
    ThawedMore(st.log, Replaced(c, st.shape.edges[c].target), frozen);
  }

  /** Moving an unfrozen edge that should be updated to the node `to`. */
  lemma MoveAdvances(st: State, c: EdgeId, to: Node, callers: map<Node, nat>, frozen: set<EdgeId>)
    requires Editable(st, callers, frozen) && Attached(st.shape, c) && c !in frozen
    requires to in st.shape.inherits && st.shape.edges[c].target != Some(to)
    requires Acyclic(Arrows(st.shape)) && !InSubtree(st.shape, c, to)
    ensures var r := ReplaceChild(st, c, Some(to), frozen);
            && Advances(st, r, callers, frozen)
            && r.shape.edges == SetTarget(st.shape, c, Some(to)) && r.shape.inherits == st.shape.inherits
            && SameBelow(st.shape, r.shape, to)
  {
    var r := ReplaceChild(st, c, Some(to), frozen);
    ReplaceChildKeeps(st, c, Some(to), callers, frozen);
    RetargetFrame(st, r, c, Some(to), frozen);
    MoveKeepsAcyclic(st.shape, r.shape, c, to);
  }

  /** bdrv_remove_child of an attached edge. */
  function RemoveChild(st: State, c: EdgeId, ghost frozen: set<EdgeId>): State
    requires Attached(st.shape, c) && c !in frozen
  {
    MarkRemoved(ReplaceChild(st, c, None, frozen), c)
  }

  lemma RemoveFrame(st: State, r: State, c: EdgeId, frozen: set<EdgeId>)
    requires RemovedOk(st) && Sealed(st, frozen) && c in st.shape.edges && st.shape.edges[c].target.None?
    requires c !in frozen && Removed(c) !in st.log && r == MarkRemoved(st, c)
    ensures RemovedOk(r) && Sealed(r, frozen)
  {
    ThawedMore(st.log, Removed(c), frozen);
  }

  lemma RemoveAdvances(st: State, c: EdgeId, callers: map<Node, nat>, frozen: set<EdgeId>)
    requires Editable(st, callers, frozen) && Attached(st.shape, c) && c !in frozen
    ensures var r := RemoveChild(st, c, frozen);
            && Advances(st, r, callers, frozen)
            && r.shape.edges == SetTarget(st.shape, c, None) && r.shape.inherits == st.shape.inherits
            && SlotFree(r.shape, c)
  {
    var mid, r := ReplaceChild(st, c, None, frozen), RemoveChild(st, c, frozen);
    ReplaceChildKeeps(st, c, None, callers, frozen);
    RetargetFrame(st, mid, c, None, frozen);
    MarkRemovedKeeps(mid, c, callers);
    RemoveFrame(mid, r, c, frozen);
    DroppedIsFewer(st.shape, r.shape, c);
    if Acyclic(Arrows(st.shape)) {
      FewerKeepAcyclic(st.shape, r.shape);
    }
  }

  lemma AttachFrame(st: State, r: State, c: Child, frozen: set<EdgeId>)
    requires RemovedOk(st) && Sealed(st, frozen) && st.next !in st.shape.edges
    requires r.shape.edges == st.shape.edges[st.next := c] && r.log == st.log + [Added(st.next)]
    ensures RemovedOk(r) && FrozenKept(st.shape, r.shape, frozen) && Sealed(r, frozen)
  {
    ThawedMore(st.log, Added(st.next), frozen);
  }

  lemma AttachAdvances(st: State, owner: Option<Node>, slot: Slot, t: Node, perms: Perms,
                       callers: map<Node, nat>, frozen: set<EdgeId>)
    requires Editable(st, callers, frozen) && t in st.shape.inherits
    requires owner.Some? ==> owner.value in st.shape.inherits && (owner.value, slot) !in st.shape.links
    requires owner.Some? ==> !Reach(Arrows(st.shape), t, owner.value)
    ensures var r := AttachChild(st, owner, slot, t, perms);
            && Advances(st, r, callers, frozen) && st.next !in st.shape.edges
            && r.shape.edges == st.shape.edges[st.next := Child(owner, slot, Some(t), perms)]
            && r.shape.inherits == st.shape.inherits
  {
    var r, c := AttachChild(st, owner, slot, t, perms), Child(owner, slot, Some(t), perms);
    AttachChildKeeps(st, owner, slot, t, perms, callers);
    AttachFrame(st, r, c, frozen);
    if Acyclic(Arrows(st.shape)) {
      AttachKeepsAcyclic(st.shape, r.shape, st.next, c);
    }
  }

  lemma PermFrame(st: State, r: State, e: EdgeId, p: Perms, frozen: set<EdgeId>)
    requires RemovedOk(st) && Sealed(st, frozen) && e in st.shape.edges && r == SetPerm(st, e, p)
    ensures RemovedOk(r) && FrozenKept(st.shape, r.shape, frozen) && NoNewEdges(st.shape, r.shape) && Sealed(r, frozen)
  {
    ThawedMore(st.log, PermSet(e, st.shape.edges[e].perms), frozen);
  }

  lemma SetPermAdvances(st: State, e: EdgeId, p: Perms, callers: map<Node, nat>, frozen: set<EdgeId>)
    requires Editable(st, callers, frozen) && e in st.shape.edges
    ensures Advances(st, SetPerm(st, e, p), callers, frozen)
  {
    var r := SetPerm(st, e, p);
    SetPermKeeps(st, e, p, callers);
    PermFrame(st, r, e, p, frozen);
    if Acyclic(Arrows(st.shape)) {
      FewerKeepAcyclic(st.shape, r.shape);
    }
  }

  lemma AdvancesTrans(a: State, b: State, c: State, callers: map<Node, nat>, frozen: set<EdgeId>)
    requires Advances(a, b, callers, frozen) && Advances(b, c, callers, frozen)
    ensures Advances(a, c, callers, frozen)
  {
  }

  // ------------------------------------------------------------ bdrv_replace_node_noperm

  /** The edges that may be pointed at `to`: of a class that moves, and not in the subtree of `to`. */
  ghost function Movable(s: Shape, stay: set<EdgeId>, to: Node): set<EdgeId> {
    set e | e in s.edges && e !in stay && !InSubtree(s, e, to)
  }

  /** A list of edges that do not point at `to` yet. */
  ghost predicate Pointed(s: Shape, parents: seq<EdgeId>, to: Node) {
    Distinct(parents) && forall c :: c in parents ==> c in s.edges && s.edges[c].target != Some(to)
  }

  lemma PointedRest(st: State, parents: seq<EdgeId>, to: Node, frozen: set<EdgeId>)
    requires Pointed(st.shape, parents, to) && parents != []
    ensures Pointed(st.shape, parents[1..], to)
    ensures parents[0] !in frozen ==> Pointed(ReplaceChild(st, parents[0], Some(to), frozen).shape, parents[1..], to)
  {
    assert forall c :: c in parents[1..] ==> c in parents && c != parents[0];
  }

  /** The loop over from->parents: it stops at a parent that must not move, or is frozen. */
  ghost function ReplaceParents(st: State, parents: seq<EdgeId>, stay: set<EdgeId>, frozen: set<EdgeId>, to: Node,
                                autoSkip: bool)
    : (State, bool)
    requires Pointed(st.shape, parents, to)
    decreases |parents|
  {
    if parents == [] then (st, true)
    else
      PointedRest(st, parents, to, frozen);
      if parents[0] !in Movable(st.shape, stay, to) then
        if autoSkip then ReplaceParents(st, parents[1..], stay, frozen, to, autoSkip) else (st, false)
      else if parents[0] in frozen then (st, false)
      else ReplaceParents(ReplaceChild(st, parents[0], Some(to), frozen), parents[1..], stay, frozen, to, autoSkip)
  }

  /** The shape s with its edges in moved pointing at `to`. */
  ghost predicate MovedTo(s: Shape, r: Shape, moved: set<EdgeId>, to: Node) {
    && r.inherits == s.inherits && r.edges.Keys == s.edges.Keys
    && (forall e :: e in s.edges && e in moved ==> r.edges[e] == s.edges[e].(target := Some(to)))
    && (forall e :: e in s.edges && e !in moved ==> r.edges[e] == s.edges[e])
  }

  /** A parent that has not been visited yet moves now if and only if it did at the start. */
  lemma StillMovable(s: Shape, r: Shape, moved: set<EdgeId>, c: EdgeId, stay: set<EdgeId>, to: Node)
    requires MovedTo(s, r, moved, to) && SameBelow(s, r, to) && Attached(s, c) && c !in moved
    ensures Attached(r, c) && (c in Movable(r, stay, to) <==> c in Movable(s, stay, to))
  {
  }

  lemma MovedMore(s: Shape, r: Shape, r': Shape, moved: set<EdgeId>, c: EdgeId, to: Node)
    requires MovedTo(s, r, moved, to) && c in s.edges
    requires r'.edges == SetTarget(r, c, Some(to)) && r'.inherits == r.inherits
    ensures MovedTo(s, r', moved + {c}, to)
  {
  }

  lemma SameBelowTrans(s: Shape, r: Shape, r': Shape, to: Node)
    requires SameBelow(s, r, to) && SameBelow(r, r', to)
    ensures SameBelow(s, r', to)
  {
  }

  /** One parent moves. */
  lemma MoveStep(start: State, st: State, moved: set<EdgeId>, c: EdgeId, to: Node, stay: set<EdgeId>,
                 callers: map<Node, nat>, frozen: set<EdgeId>)
    requires Advances(start, st, callers, frozen) && MovedTo(start.shape, st.shape, moved, to)
    requires SameBelow(start.shape, st.shape, to) && Acyclic(Arrows(start.shape)) && to in start.shape.inherits
    requires Attached(start.shape, c) && c !in moved && c in Movable(start.shape, stay, to) && c !in frozen
    requires start.shape.edges[c].target != Some(to)
    ensures c in st.shape.edges && st.shape.edges[c].target != Some(to)
    ensures var r := ReplaceChild(st, c, Some(to), frozen);
            Advances(start, r, callers, frozen) && MovedTo(start.shape, r.shape, moved + {c}, to) &&
            SameBelow(start.shape, r.shape, to)
  {
    StillMovable(start.shape, st.shape, moved, c, stay, to);
    var r := ReplaceChild(st, c, Some(to), frozen);
    MoveAdvances(st, c, to, callers, frozen);
    AdvancesTrans(start, st, r, callers, frozen);
    MovedMore(start.shape, st.shape, r.shape, moved, c, to);
    SameBelowTrans(start.shape, st.shape, r.shape, to);
  }

  /** No parent stops the loop. */
  ghost predicate NoneStops(parents: seq<EdgeId>, movable: set<EdgeId>, frozen: set<EdgeId>, autoSkip: bool) {
    parents == [] ||
    ((if parents[0] in movable then parents[0] !in frozen else autoSkip) &&
     NoneStops(parents[1..], movable, frozen, autoSkip))
  }

  lemma {:induction false} NoneStopsMeans(parents: seq<EdgeId>, movable: set<EdgeId>, frozen: set<EdgeId>,
                                          autoSkip: bool)
    ensures NoneStops(parents, movable, frozen, autoSkip) <==>
            forall c :: c in parents ==> if c in movable then c !in frozen else autoSkip
  {
    if parents != [] {
      assert forall x :: x in parents <==> x == parents[0] || x in parents[1..];
      NoneStopsMeans(parents[1..], movable, frozen, autoSkip);
    }
  }

  ghost function Movers(parents: seq<EdgeId>, movable: set<EdgeId>): set<EdgeId> {
    set c | c in parents && c in movable
  }

  lemma FirstParent(parents: seq<EdgeId>, movable: set<EdgeId>, frozen: set<EdgeId>, autoSkip: bool, moved: set<EdgeId>)
    requires parents != []
    ensures var c, rest := parents[0], parents[1..];
            && (NoneStops(parents, movable, frozen, autoSkip) <==>
                (if c in movable then c !in frozen else autoSkip) && NoneStops(rest, movable, frozen, autoSkip))
            && (c in movable ==> moved + Movers(parents, movable) == moved + {c} + Movers(rest, movable))
            && (c !in movable ==> moved + Movers(parents, movable) == moved + Movers(rest, movable))
  {
  }

  /** Where the loop stands when the edges in moved have moved. */
  ghost predicate Moving(start: State, st: State, moved: set<EdgeId>, to: Node, callers: map<Node, nat>,
                         frozen: set<EdgeId>) {
    Advances(start, st, callers, frozen) && MovedTo(start.shape, st.shape, moved, to) &&
    SameBelow(start.shape, st.shape, to)
  }

  ghost predicate Visitable(s: Shape, parents: seq<EdgeId>, moved: set<EdgeId>, to: Node) {
    && (forall c :: c in parents ==> Attached(s, c) && c !in moved && s.edges[c].target != Some(to))
    && Distinct(parents)
  }

  lemma VisitableRest(s: Shape, parents: seq<EdgeId>, moved: set<EdgeId>, to: Node)
    requires Visitable(s, parents, moved, to) && parents != []
    ensures Visitable(s, parents[1..], moved, to) && Visitable(s, parents[1..], moved + {parents[0]}, to)
  {
  }

  lemma StillPointed(s: Shape, r: Shape, moved: set<EdgeId>, to: Node, parents: seq<EdgeId>)
    requires MovedTo(s, r, moved, to) && Visitable(s, parents, moved, to)
    ensures Pointed(r, parents, to)
  {
  }

  /** How the loop ends: undoable, and successful exactly when nothing stops it, with the edges of goal moved. */
  ghost predicate Ends(start: State, r: (State, bool), goal: set<EdgeId>, success: bool, to: Node,
                       callers: map<Node, nat>, frozen: set<EdgeId>) {
    Advances(start, r.0, callers, frozen) && r.1 == success && (r.1 ==> MovedTo(start.shape, r.0.shape, goal, to))
  }

  /**
   The parents end up at `to` exactly when none of them stops the loop, and then those that
   may move have moved and nothing else has; whatever happens, the edits can be undone.
   */
  lemma {:induction false} ReplaceParentsMoves(start: State, st: State, moved: set<EdgeId>, parents: seq<EdgeId>,
                                               goal: set<EdgeId>,
                                               to: Node, autoSkip: bool, stay: set<EdgeId>, callers: map<Node, nat>,
                                               frozen: set<EdgeId>)
    requires Moving(start, st, moved, to, callers, frozen) && Visitable(start.shape, parents, moved, to)
    requires Acyclic(Arrows(start.shape)) && to in start.shape.inherits
    requires goal == moved + Movers(parents, Movable(start.shape, stay, to))
    ensures Pointed(st.shape, parents, to)
    ensures Ends(start, ReplaceParents(st, parents, stay, frozen, to, autoSkip), goal,
                 NoneStops(parents, Movable(start.shape, stay, to), frozen, autoSkip), to, callers, frozen)
    decreases |parents|
  {
    var movable := Movable(start.shape, stay, to);
    StillPointed(start.shape, st.shape, moved, to, parents);
    if parents == [] {
      assert goal == moved;
    } else {
      var c, rest := parents[0], parents[1..];
      StillMovable(start.shape, st.shape, moved, c, stay, to);
      FirstParent(parents, movable, frozen, autoSkip, moved);
      VisitableRest(start.shape, parents, moved, to);
      if c in movable && c !in frozen {
        MoveStep(start, st, moved, c, to, stay, callers, frozen);
        ReplaceParentsMoves(start, ReplaceChild(st, c, Some(to), frozen), moved + {c}, rest, goal, to, autoSkip, stay,
                            callers, frozen);
      } else if c !in movable && autoSkip {
        ReplaceParentsMoves(start, st, moved, rest, goal, to, autoSkip, stay, callers, frozen);
      }
    }
  }
}
