/**
 What the graph-changing operations are to make of a graph, and that their edits do.
 */
module GraphGoals {
  import opened Options
  import opened Sequences
  import opened Digraph
  import opened Permissions
  import opened GraphEdits
  import opened GraphOperations
  import opened GraphPermissions
  import opened BackingChains
  import opened Inheritance

  lemma AdvancesRefl(st: State, callers: map<Node, nat>, frozen: set<EdgeId>)
    requires Editable(st, callers, frozen)
    ensures Advances(st, st, callers, frozen)
  {
  }

  // ------------------------------------------------------------ pointing edges elsewhere

  /** The shape s with the edges in movers pointing at `to`, and the edge detach at nothing. */
  ghost function Rewire(s: Shape, movers: set<EdgeId>, detach: Option<EdgeId>, to: Node): Shape {
    s.(edges := map e | e in s.edges :: s.edges[e].(target := if detach == Some(e) then None
                                                              else if e in movers then Some(to) else s.edges[e].target))
  }

  /** The shape s with one more edge. */
  function WithEdge(s: Shape, e: EdgeId, c: Child): Shape {
    s.(edges := s.edges[e := c])
  }

  lemma MovedIsRewired(s: Shape, r: Shape, movers: set<EdgeId>, to: Node)
    requires MovedTo(s, r, movers, to)
    ensures SameEdges(Rewire(s, movers, None, to), r)
  {
  }

  lemma RewiredDrop(s: Shape, a: Shape, r: Shape, movers: set<EdgeId>, d: EdgeId, to: Node)
    requires SameEdges(Rewire(s, movers, None, to), a) && Attached(a, d) && r.edges == SetTarget(a, d, None) &&
             r.inherits == a.inherits
    ensures SameEdges(Rewire(s, movers, Some(d), to), r)
  {
    var goal := Rewire(s, movers, Some(d), to);
    forall e ensures (Attached(goal, e) <==> Attached(r, e)) && (Attached(goal, e) ==> r.edges[e] == goal.edges[e]) {
      assert Attached(Rewire(s, movers, None, to), e) <==> Attached(a, e);
    }
  }

  lemma RewireTotal(s: Shape, movers: set<EdgeId>, detach: Option<EdgeId>, to: Node)
    requires Total(s) && to in s.inherits
    ensures Total(Rewire(s, movers, detach, to))
  {
  }

  lemma SameEdgesTrans(s: Shape, a: Shape, r: Shape)
    requires SameEdges(s, a) && SameAttached(a, r)
    ensures SameAttached(s, r)
  {
    forall e ensures (Attached(s, e) <==> Attached(r, e)) &&
                     (Attached(s, e) ==> r.edges[e].(perms := s.edges[e].perms) == s.edges[e]) {
      assert Attached(s, e) <==> Attached(a, e);
    }
  }

  lemma SameEdgesTwice(s: Shape, a: Shape, r: Shape)
    requires SameEdges(s, a) && SameEdges(a, r)
    ensures SameEdges(s, r)
  {
    forall e ensures (Attached(s, e) <==> Attached(r, e)) && (Attached(s, e) ==> r.edges[e] == s.edges[e]) {
      assert Attached(s, e) <==> Attached(a, e);
    }
  }

  lemma SameAttachedTrans(s: Shape, a: Shape, r: Shape)
    requires SameAttached(s, a) && SameEdges(a, r)
    ensures SameAttached(s, r)
  {
    forall e ensures (Attached(s, e) <==> Attached(r, e)) &&
                     (Attached(s, e) ==> r.edges[e].(perms := s.edges[e].perms) == s.edges[e]) {
      assert Attached(s, e) <==> Attached(a, e);
    }
  }

  // ------------------------------------------------------------ filters

  lemma SameFilters(s: Shape, r: Shape, drv: Node -> Driver)
    requires FiltersOk(s, drv) && SameAttached(s, r)
    ensures FiltersOk(r, drv)
  {
    forall e | Attached(r, e) ensures s.edges[e].owner == r.edges[e].owner && s.edges[e].slot == r.edges[e].slot {
      assert Attached(s, e);
    }
  }

  lemma RewiredFilters(s: Shape, movers: set<EdgeId>, detach: Option<EdgeId>, to: Node, drv: Node -> Driver)
    requires FiltersOk(s, drv) && forall e :: e in movers ==> Attached(s, e)
    ensures FiltersOk(Rewire(s, movers, detach, to), drv)
  {
    forall e | Attached(Rewire(s, movers, detach, to), e) ensures Attached(s, e) {
    }
  }

  /** An edge that a filter may have: its filtered child, or one that is not registered. */
  predicate MayOwn(drv: Node -> Driver, c: Child) {
    c.owner.Some? && c.slot != NoLink && drv(c.owner.value).isFilter ==> c.slot == BackingSlot(drv(c.owner.value))
  }

  lemma RoleMayOwn(drv: Node -> Driver, owner: Node, role: Role, t: Node, perms: Perms)
    requires RoleOk(drv(owner), role)
    ensures MayOwn(drv, Child(Some(owner), SlotOf(drv(owner), role), Some(t), perms))
  {
  }

  lemma AddedFilters(s: Shape, e: EdgeId, c: Child, drv: Node -> Driver)
    requires FiltersOk(s, drv) && MayOwn(drv, c)
    ensures FiltersOk(WithEdge(s, e, c), drv)
  {
    forall x | Attached(WithEdge(s, e, c), x) && x != e ensures Attached(s, x) {
    }
  }

  // ------------------------------------------------------------ what an operation leaves

  /** Between transactions: everything is accounted for, and nothing is cyclic. */
  ghost predicate ReadyState(st: State, callers: map<Node, nat>, frozen: set<EdgeId>, drv: Node -> Driver) {
    && Editable(st, callers, frozen) && st.log == [] && Acyclic(Arrows(st.shape))
    && FiltersOk(st.shape, drv) && Grounded(st.shape.inherits)
  }

  /** The edits have made of the graph what they should. */
  ghost predicate Reached(goal: Shape, s: Shape, drv: Node -> Driver) {
    SameEdges(goal, s) && goal.inherits == s.inherits && Total(goal) && FiltersOk(goal, drv) && Grounded(goal.inherits)
  }

  /** The edits of an operation; they can be undone, and if done is set they are complete. */
  ghost predicate Edited(start: State, st: State, done: bool, goal: Shape, callers: map<Node, nat>, frozen: set<EdgeId>,
                         drv: Node -> Driver) {
    Advances(start, st, callers, frozen) && (done ==> Reached(goal, st.shape, drv))
  }

  /**
   An operation is over: if done is set, the graph is the goal, with the permissions a refresh below the
   roots finds, which are consistent there; else it is as it was.  In any case no frozen edge has moved.
   */
  ghost predicate Finished(start: State, st: State, done: bool, goal: Shape, roots: seq<Node>, h: Hooks,
                           callers: map<Node, nat>, frozen: set<EdgeId>, drv: Node -> Driver) {
    && ReadyState(st, callers, frozen, drv) && FrozenKept(start.shape, st.shape, frozen)
    && if done
       then
         && SameAttached(goal, st.shape) && st.shape.inherits == goal.inherits
         && Refreshes(goal, h, roots, PermsOf(st.shape)) && AllConsistent(st.shape, h, roots)
       else st.shape == start.shape
  }

  /** References may change hands between transactions. */
  lemma StaysReady(st: State, r: State, callers: map<Node, nat>, after: map<Node, nat>, frozen: set<EdgeId>,
                   drv: Node -> Driver)
    requires ReadyState(st, callers, frozen, drv) && Good(r, after) && r.shape == st.shape && r.log == st.log
    ensures ReadyState(r, after, frozen, drv)
  {
  }

  lemma RefReady(st: State, n: Node, callers: map<Node, nat>, frozen: set<EdgeId>, drv: Node -> Driver)
    requires ReadyState(st, callers, frozen, drv) && n in st.shape.inherits
    ensures ReadyState(TakeRef(st, n), Taken(callers, n), frozen, drv)
  {
    TakeRefKeeps(st, n, callers);
    StaysReady(st, TakeRef(st, n), callers, Taken(callers, n), frozen, drv);
  }

  lemma UnrefReady(st: State, n: Node, callers: map<Node, nat>, frozen: set<EdgeId>, drv: Node -> Driver)
    requires ReadyState(st, callers, frozen, drv) && n in st.shape.inherits && n in st.scheduled
    ensures ReadyState(RunUnref(st, n), callers, frozen, drv) && n in st.refcnt && st.refcnt[n] > 0
  {
    RunUnrefKeeps(st, n, callers);
    StaysReady(st, RunUnref(st, n), callers, callers, frozen, drv);
  }

  /** The reference that attaching takes over is given up in the end. */
  lemma GiveUpFinished(start: State, st: State, done: bool, goal: Shape, roots: seq<Node>, h: Hooks, n: Node,
                       callers: map<Node, nat>, frozen: set<EdgeId>, drv: Node -> Driver)
    requires Finished(start, st, done, goal, roots, h, callers, frozen, drv) && n in callers && callers[n] > 0
    ensures Finished(start, GiveUp(st, n), done, goal, roots, h, GivenUp(callers, n), frozen, drv)
  {
    GiveUpKeeps(st, n, callers);
    StaysReady(st, GiveUp(st, n), callers, GivenUp(callers, n), frozen, drv);
  }

  lemma RewiredReached(s: Shape, movers: set<EdgeId>, detach: Option<EdgeId>, to: Node, r: Shape, drv: Node -> Driver)
    requires Total(s) && to in s.inherits && FiltersOk(s, drv) && Grounded(s.inherits) &&
             forall e :: e in movers ==> Attached(s, e)
    requires SameEdges(Rewire(s, movers, detach, to), r) && r.inherits == s.inherits
    ensures Reached(Rewire(s, movers, detach, to), r, drv)
  {
    RewireTotal(s, movers, detach, to);
    RewiredFilters(s, movers, detach, to, drv);
  }

  lemma EditedRefresh(start: State, st: State, goal: Shape, h: Hooks, roots: seq<Node>, callers: map<Node, nat>,
                      frozen: set<EdgeId>, drv: Node -> Driver)
    requires Edited(start, st, true, goal, callers, frozen, drv)
    ensures Refreshable(goal, h, roots) == Refreshable(st.shape, h, roots)
  {
    SameRefresh(goal, st.shape, h, roots);
  }

  /** From the edited shape over the refreshed one to the committed one. */
  lemma ReachedEnds(goal: Shape, edited: Shape, last: Shape, r: Shape, drv: Node -> Driver, h: Hooks, roots: seq<Node>)
    requires Reached(goal, edited, drv) && SameAttached(edited, last) && SameEdges(last, r) && Total(edited) && Total(r)
    requires Refreshes(edited, h, roots, PermsOf(last))
    ensures SameAttached(goal, r) && FiltersOk(r, drv)
    ensures Refreshes(goal, h, roots, PermsOf(r)) && AllConsistent(r, h, roots)
  {
    SamePermissions(last, r);
    SameRefresh(goal, edited, h, roots);
    SameAttachedTrans(edited, last, r);
    SameEdgesTrans(goal, edited, r);
    RefreshedIsConsistent(goal, r, h, roots);
    SameFilters(goal, r, drv);
  }

  // ------------------------------------------------------------ bdrv_replace_node_common

  /** The list from->parents. */
  ghost predicate ParentsOf(s: Shape, from: Node, parents: seq<EdgeId>) {
    (forall c :: c in parents <==> c in Pointing(s, from)) && Distinct(parents)
  }

  lemma ParentsAre(s: Shape, from: Node, parents: seq<EdgeId>, to: Node)
    requires ParentsOf(s, from, parents) && from != to
    ensures Visitable(s, parents, {}, to) && Pointed(s, parents, to) && forall c :: c in parents ==> Attached(s, c)
  {
  }

  lemma ListIsParents(s: Shape, n: Node)
    ensures ParentsOf(s, n, ListOf(Pointing(s, n)))
  {
    ListIsDistinct(Pointing(s, n));
  }

  lemma MoversAttached(s: Shape, from: Node, parents: seq<EdgeId>, movable: set<EdgeId>)
    requires forall c :: c in parents ==> c in Pointing(s, from)
    ensures forall e :: e in Movers(parents, movable) ==> Attached(s, e)
  {
  }

  /** What bdrv_replace_node_noperm leaves when it is done, or has stopped. */
  ghost predicate NodeReplaced(start: State, st: State, done: bool, movers: set<EdgeId>, to: Node,
                               callers: map<Node, nat>, frozen: set<EdgeId>) {
    && Advances(start, st, callers, frozen)
    && (done ==>
          SameEdges(Rewire(start.shape, movers, None, to), st.shape) && st.shape.inherits == start.shape.inherits)
  }

  /** bdrv_replace_node_noperm on the parents of `from`: when it succeeds, and what it then did. */
  lemma ReplaceNodeMoves(st: State, from: Node, parents: seq<EdgeId>, to: Node, autoSkip: bool, stay: set<EdgeId>,
                         callers: map<Node, nat>, frozen: set<EdgeId>)
    requires Editable(st, callers, frozen) && Acyclic(Arrows(st.shape)) && to in st.shape.inherits && from != to
    requires ParentsOf(st.shape, from, parents)
    ensures Pointed(st.shape, parents, to) && forall c :: c in parents ==> Attached(st.shape, c)
    ensures var r := ReplaceParents(st, parents, stay, frozen, to, autoSkip);
            var movable := Movable(st.shape, stay, to);
            && (r.1 <==> NoneStops(parents, movable, frozen, autoSkip))
            && NodeReplaced(st, r.0, r.1, Movers(parents, movable), to, callers, frozen)
  {
    var movers := Movers(parents, Movable(st.shape, stay, to));
    assert {} + movers == movers;
    AdvancesRefl(st, callers, frozen);
    ParentsAre(st.shape, from, parents, to);
    ReplaceParentsMoves(st, st, {}, parents, movers, to, autoSkip, stay, callers, frozen);
    var r := ReplaceParents(st, parents, stay, frozen, to, autoSkip);
    if r.1 {
      MovedIsRewired(st.shape, r.0.shape, movers, to);
    }
  }

  /** The link from the COW parent of `to` goes away, if it is to. */
  ghost function Detached(st: State, detach: Option<EdgeId>, frozen: set<EdgeId>): State {
    if detach.Some? && Attached(st.shape, detach.value) && detach.value !in frozen
    then RemoveChild(st, detach.value, frozen)
    else st
  }

  lemma DetachStep(start: State, st: State, movers: set<EdgeId>, d: EdgeId, to: Node, callers: map<Node, nat>,
                   frozen: set<EdgeId>)
    requires NodeReplaced(start, st, true, movers, to, callers, frozen) && Attached(start.shape, d) && d !in frozen
    ensures Attached(st.shape, d) && Advances(start, RemoveChild(st, d, frozen), callers, frozen)
    ensures SameEdges(Rewire(start.shape, movers, Some(d), to), RemoveChild(st, d, frozen).shape)
    ensures RemoveChild(st, d, frozen).shape.inherits == st.shape.inherits
  {
    assert Attached(Rewire(start.shape, movers, None, to), d);
    var r := RemoveChild(st, d, frozen);
    RemoveAdvances(st, d, callers, frozen);
    AdvancesTrans(start, st, r, callers, frozen);
    RewiredDrop(start.shape, st.shape, r.shape, movers, d, to);
  }

  lemma ReplaceEnds(start: State, st: State, from: Node, parents: seq<EdgeId>, to: Node, detach: Option<EdgeId>,
                    stay: set<EdgeId>, callers: map<Node, nat>, frozen: set<EdgeId>, drv: Node -> Driver)
    requires ReadyState(start, callers, frozen, drv) && to in start.shape.inherits &&
             ParentsOf(start.shape, from, parents)
    requires detach.Some? ==> detach.value in Pointing(start.shape, to) && detach.value !in frozen
    requires NodeReplaced(start, st, true, Movers(parents, Movable(start.shape, stay, to)), to, callers, frozen)
    ensures detach.Some? ==> Attached(st.shape, detach.value)
    ensures var goal := Rewire(start.shape, Movers(parents, Movable(start.shape, stay, to)), detach, to);
            Edited(start, Detached(st, detach, frozen), true, goal, callers, frozen, drv)
  {
    var movers := Movers(parents, Movable(start.shape, stay, to));
    MoversAttached(start.shape, from, parents, Movable(start.shape, stay, to));
    if detach.Some? {
      DetachStep(start, st, movers, detach.value, to, callers, frozen);
    }
    RewiredReached(start.shape, movers, detach, to, Detached(st, detach, frozen).shape, drv);
  }

  // ------------------------------------------------------------ bdrv_append

  /** What bdrv_attach_child_noperm leaves when it is done, or has refused. */
  ghost predicate ChildAttached(start: State, st: State, done: bool, c: Child, callers: map<Node, nat>,
                                frozen: set<EdgeId>) {
    && Advances(start, st, callers, frozen)
    && (done ==> start.next !in start.shape.edges && st.shape.edges == start.shape.edges[start.next := c]
                 && st.shape.inherits == start.shape.inherits)
  }

  lemma ChildAttaches(st: State, owner: Option<Node>, slot: Slot, t: Node, perms: Perms, callers: map<Node, nat>,
                      frozen: set<EdgeId>)
    requires Editable(st, callers, frozen) && t in st.shape.inherits
    requires owner.Some? ==>
               && owner.value in st.shape.inherits && (owner.value, slot) !in st.shape.links
               && !Reach(Arrows(st.shape), t, owner.value)
    ensures ChildAttached(st, AttachChild(st, owner, slot, t, perms), true, Child(owner, slot, Some(t), perms),
                          callers, frozen)
  {
    AttachAdvances(st, owner, slot, t, perms, callers, frozen);
  }

  /** An attachment is all that bdrv_attach_child and bdrv_root_attach_child edit. */
  lemma AttachEnds(start: State, st: State, done: bool, c: Child, callers: map<Node, nat>, frozen: set<EdgeId>,
                   drv: Node -> Driver)
    requires ReadyState(start, callers, frozen, drv) && ChildAttached(start, st, done, c, callers, frozen)
    requires c.target.Some? && c.target.value in start.shape.inherits && MayOwn(drv, c)
    requires c.owner.Some? ==> c.owner.value in start.shape.inherits
    ensures Edited(start, st, done, WithEdge(start.shape, start.next, c), callers, frozen, drv)
  {
    if done {
      GrownReached(start.shape, start.next, c, st.shape, drv);
    }
  }

  lemma GrownReached(s: Shape, e: EdgeId, c: Child, r: Shape, drv: Node -> Driver)
    requires Total(s) && FiltersOk(s, drv) && Grounded(s.inherits) && MayOwn(drv, c)
    requires c.target.Some? && c.target.value in s.inherits && (c.owner.Some? ==> c.owner.value in s.inherits)
    requires r.edges == s.edges[e := c] && r.inherits == s.inherits
    ensures Reached(WithEdge(s, e, c), r, drv)
  {
    GrownTotal(s, e, c);
    AddedFilters(s, e, c, drv);
    EqualEdges(WithEdge(s, e, c), r);
  }

  lemma EqualEdges(s: Shape, r: Shape)
    requires s.edges == r.edges && s.inherits.Keys == r.inherits.Keys
    ensures SameEdges(s, r)
  {
  }

  /** When a new edge to top makes top part of the subtree of bsNew, the parents of top that may move are the same. */
  lemma MovableAfterAttach(s: Shape, r: Shape, e: EdgeId, c: Child, top: Node, bsNew: Node, p: EdgeId,
                           stay: set<EdgeId>)
    requires Total(s) && Acyclic(Arrows(s)) && e !in s.edges && c.owner == Some(bsNew) && c.target == Some(top)
    requires r.edges == s.edges[e := c] && r.inherits == s.inherits && bsNew in s.inherits
    requires !Reach(Arrows(s), top, bsNew) && p in Pointing(s, top)
    ensures p in Movable(r, stay, bsNew) <==> p in Movable(s, stay, bsNew)
  {
    var d, d' := Arrows(s), Arrows(r);
    forall u, v | Arrow(d', u, v) ensures Arrow(d, u, v) || (u in {bsNew} && v == top) {
      var x := ArrowEdge(r, u, v);
    }
    forall u, v | Arrow(d, u, v) ensures Arrow(d', u, v) {
      var x := ArrowEdge(s, u, v);
      assert r.edges[x] == s.edges[x];
    }
    if s.edges[p].owner.Some? {
      var o := s.edges[p].owner.value;
      EdgeArrow(s, p);
      if Reach(d', bsNew, o) {
        var path :| PathFromTo(d', path, bsNew, o);
        RedirectedPath(d', d, {bsNew}, top, path);
      }
      if Reach(d, bsNew, o) {
        SubReach(d, d', bsNew, o);
      }
    }
  }

  lemma SkipFirst(e: EdgeId, parents: seq<EdgeId>, before: set<EdgeId>, after: set<EdgeId>, frozen: set<EdgeId>)
    requires e !in after && forall p :: p in parents ==> (p in after <==> p in before)
    ensures Movers([e] + parents, after) == Movers(parents, before)
    ensures NoneStops([e] + parents, after, frozen, true) <==> NoneStops(parents, before, frozen, true)
  {
    assert forall x :: x in [e] + parents <==> x == e || x in parents;
    NoneStopsMeans([e] + parents, after, frozen, true);
    NoneStopsMeans(parents, before, frozen, true);
  }

  lemma OneMoreParent(s: Shape, r: Shape, e: EdgeId, c: Child, top: Node, parents: seq<EdgeId>)
    requires e !in s.edges && c.target == Some(top) && r.edges == s.edges[e := c] && ParentsOf(s, top, parents)
    ensures ParentsOf(r, top, [e] + parents)
  {
    var q := [e] + parents;
    assert forall x :: x in q <==> x == e || x in parents;
    forall i, j | 0 <= i < j < |q| ensures q[i] != q[j] {
      assert q[j] == parents[j - 1] && parents[j - 1] in parents;
    }
  }

  /** The new edge does not stop the loop and does not move. */
  lemma AppendMovers(s: Shape, r: Shape, e: EdgeId, c: Child, top: Node, bsNew: Node, parents: seq<EdgeId>,
                     stay: set<EdgeId>, frozen: set<EdgeId>)
    requires Total(s) && Acyclic(Arrows(s)) && e !in s.edges && c.owner == Some(bsNew) && c.target == Some(top)
    requires r.edges == s.edges[e := c] && r.inherits == s.inherits && bsNew in s.inherits
    requires !Reach(Arrows(s), top, bsNew) && ParentsOf(s, top, parents)
    ensures ParentsOf(r, top, [e] + parents) && top != bsNew
    ensures var before, after := Movable(s, stay, bsNew), Movable(r, stay, bsNew);
            && Movers([e] + parents, after) == Movers(parents, before)
            && (NoneStops([e] + parents, after, frozen, true) <==> NoneStops(parents, before, frozen, true))
  {
    forall p | p in parents ensures p in Movable(r, stay, bsNew) <==> p in Movable(s, stay, bsNew) {
      MovableAfterAttach(s, r, e, c, top, bsNew, p, stay);
    }
    ReachRefl(Arrows(r), bsNew);
    ReachRefl(Arrows(s), bsNew);
    SkipFirst(e, parents, Movable(s, stay, bsNew), Movable(r, stay, bsNew), frozen);
    OneMoreParent(s, r, e, c, top, parents);
  }

  lemma GrownTotal(s: Shape, e: EdgeId, c: Child)
    requires Total(s) && c.target.Some? && c.target.value in s.inherits &&
             (c.owner.Some? ==> c.owner.value in s.inherits)
    ensures Total(WithEdge(s, e, c))
  {
  }

  /** The graph with bsNew, which has top as its backing child, between top and those of its parents that may move. */
  ghost function Appended(st: State, bsNew: Node, top: Node, parents: seq<EdgeId>, perms: Perms, stay: set<EdgeId>,
                          drv: Node -> Driver): Shape {
    Rewire(WithEdge(st.shape, st.next, Child(Some(bsNew), BackingSlot(drv(bsNew)), Some(top), perms)),
           Movers(parents, Movable(st.shape, stay, bsNew)), None, bsNew)
  }

  lemma SameRewired(s: Shape, a: Shape, movers: set<EdgeId>, to: Node, r: Shape)
    requires s.edges == a.edges && s.inherits == a.inherits && SameEdges(Rewire(a, movers, None, to), r)
    ensures SameEdges(Rewire(s, movers, None, to), r)
  {
    forall e ensures Attached(Rewire(s, movers, None, to), e) <==> Attached(Rewire(a, movers, None, to), e) {
    }
  }

  lemma AppendReached(start: State, attached: Shape, bsNew: Node, top: Node, parents: seq<EdgeId>, perms: Perms,
                      stay: set<EdgeId>, r: Shape, drv: Node -> Driver)
    requires Total(start.shape) && FiltersOk(start.shape, drv) && Grounded(start.shape.inherits) &&
             start.next !in start.shape.edges
    requires bsNew in start.shape.inherits && top in start.shape.inherits && ParentsOf(start.shape, top, parents)
    requires attached.edges ==
             start.shape.edges[start.next := Child(Some(bsNew), BackingSlot(drv(bsNew)), Some(top), perms)]
    requires attached.inherits == start.shape.inherits == r.inherits
    requires SameEdges(Rewire(attached, Movers(parents, Movable(start.shape, stay, bsNew)), None, bsNew), r)
    ensures Reached(Appended(start, bsNew, top, parents, perms, stay, drv), r, drv)
  {
    var c := Child(Some(bsNew), BackingSlot(drv(bsNew)), Some(top), perms);
    var grown, movers := WithEdge(start.shape, start.next, c), Movers(parents, Movable(start.shape, stay, bsNew));
    GrownTotal(start.shape, start.next, c);
    AddedFilters(start.shape, start.next, c, drv);
    MoversAttached(start.shape, top, parents, Movable(start.shape, stay, bsNew));
    forall e | e in movers ensures Attached(grown, e) {
      assert Attached(start.shape, e);
    }
    SameRewired(grown, attached, movers, bsNew, r);
    RewiredReached(grown, movers, None, bsNew, r, drv);
  }

  lemma AppendEnds(start: State, attached: State, st: State, bsNew: Node, top: Node, parents: seq<EdgeId>, perms: Perms,
                   stay: set<EdgeId>, done: bool, callers: map<Node, nat>, frozen: set<EdgeId>, drv: Node -> Driver)
    requires ReadyState(start, callers, frozen, drv) && bsNew in start.shape.inherits && top in start.shape.inherits
    requires ParentsOf(start.shape, top, parents)
    requires ChildAttached(start, attached, true, Child(Some(bsNew), BackingSlot(drv(bsNew)), Some(top), perms),
                           callers, frozen)
    requires NodeReplaced(attached, st, done, Movers(parents, Movable(start.shape, stay, bsNew)), bsNew, callers,
                          frozen)
    ensures Edited(start, st, done, Appended(start, bsNew, top, parents, perms, stay, drv), callers, frozen, drv)
  {
    AdvancesTrans(start, attached, st, callers, frozen);
    if done {
      AppendReached(start, attached.shape, bsNew, top, parents, perms, stay, st.shape, drv);
    }
  }

  /** The parents of top once it has the new edge, and what moves of them. */
  lemma AppendNext(start: State, attached: State, bsNew: Node, top: Node, parents: seq<EdgeId>, perms: Perms,
                   stay: set<EdgeId>, callers: map<Node, nat>, frozen: set<EdgeId>, drv: Node -> Driver)
    requires ReadyState(start, callers, frozen, drv) && bsNew in start.shape.inherits &&
             ParentsOf(start.shape, top, parents)
    requires ChildAttached(start, attached, true, Child(Some(bsNew), BackingSlot(drv(bsNew)), Some(top), perms),
                           callers, frozen)
    requires !Reach(Arrows(start.shape), top, bsNew)
    ensures Editable(attached, callers, frozen) && Acyclic(Arrows(attached.shape)) &&
            bsNew in attached.shape.inherits && top != bsNew
    ensures var list := [start.next] + parents;
            var before, after := Movable(start.shape, stay, bsNew), Movable(attached.shape, stay, bsNew);
            && ParentsOf(attached.shape, top, list) && Movers(list, after) == Movers(parents, before)
            && (NoneStops(list, after, frozen, true) <==> NoneStops(parents, before, frozen, true))
  {
    var c := Child(Some(bsNew), BackingSlot(drv(bsNew)), Some(top), perms);
    AppendMovers(start.shape, attached.shape, start.next, c, top, bsNew, parents, stay, frozen);
  }

  // ------------------------------------------------------------ bdrv_set_backing_hd

  /** The shape s with bs->backing unset. */
  function WithoutBacking(s: Shape, bs: Node): Shape {
    var k := (bs, BackingLink);
    if k in s.links && s.links[k] in s.edges then s.(edges := SetTarget(s, s.links[k], None)) else s
  }

  predicate BackingFrozen(s: Shape, bs: Node, frozen: set<EdgeId>) {
    (bs, BackingLink) in s.links && s.links[(bs, BackingLink)] in frozen
  }

  lemma InheritsFrame(st: State, r: State, n: Node, from: Option<Node>, frozen: set<EdgeId>)
    requires RemovedOk(st) && Sealed(st, frozen) && n in st.shape.inherits && r == SetInheritsFrom(st, n, from)
    ensures RemovedOk(r) && FrozenKept(st.shape, r.shape, frozen) && NoNewEdges(st.shape, r.shape) && Sealed(r, frozen)
  {
    ThawedMore(st.log, InheritsSet(n, st.shape.inherits[n]), frozen);
  }

  lemma SetInheritsAdvances(st: State, n: Node, from: Option<Node>, callers: map<Node, nat>, frozen: set<EdgeId>)
    requires Editable(st, callers, frozen) && n in st.shape.inherits
    ensures Advances(st, SetInheritsFrom(st, n, from), callers, frozen)
  {
    var r := SetInheritsFrom(st, n, from);
    SetInheritsFromKeeps(st, n, from, callers);
    InheritsFrame(st, r, n, from, frozen);
    if Acyclic(Arrows(st.shape)) {
      FewerKeepAcyclic(st.shape, r.shape);
    }
  }

  /** Removing the edge that is bs->backing unsets the link and nothing else. */
  lemma LinkRemoved(st: State, k: (Node, Slot), frozen: set<EdgeId>)
    requires Wf(st.shape) && k in st.shape.links && st.shape.links[k] !in frozen
    ensures var c := st.shape.links[k];
            && Attached(st.shape, c) && RemoveChild(st, c, frozen).shape.edges == SetTarget(st.shape, c, None)
            && RemoveChild(st, c, frozen).shape.links == st.shape.links - {k}
  {
  }

  lemma ArrowsSame(s: Shape, r: Shape)
    requires s.edges == r.edges && s.inherits.Keys == r.inherits.Keys
    ensures Arrows(s) == Arrows(r)
  {
    forall n | n in s.inherits ensures ChildEdges(s, n) == ChildEdges(r, n) {
    }
  }

  /** inherits_from once the old backing link is gone. */
  ghost function Disinherited(s: Shape, bs: Node): Inherits {
    var k := (bs, BackingLink);
    if k in s.links && Attached(s, s.links[k])
    then Cleared(s, s.inherits, bs, s.links[k], Below(Arrows(s), s.edges[s.links[k]].target.value)) else s.inherits
  }

  /** inherits_from when the backing link has been set to target. */
  ghost function Reinherited(s: Shape, bs: Node, target: Option<Node>): Inherits {
    if target.Some? && Reach(Upward(s.inherits), target.value, bs) then Disinherited(s, bs)[target.value := Some(bs)]
    else Disinherited(s, bs)
  }

  /** The shape s with the child `target`, if any, in place of bs->backing. */
  ghost function Rebacked(s: Shape, bs: Node, target: Option<Node>, slot: Slot, perms: Perms, e: EdgeId): Shape {
    var w := WithoutBacking(s, bs).(inherits := Reinherited(s, bs, target));
    if target.Some? then WithEdge(w, e, Child(Some(bs), slot, target, perms)) else w
  }

  lemma RebackedFilters(s: Shape, bs: Node, target: Option<Node>, perms: Perms, e: EdgeId, drv: Node -> Driver)
    requires FiltersOk(s, drv)
    ensures FiltersOk(Rebacked(s, bs, target, BackingSlot(drv(bs)), perms, e), drv)
  {
    var w := WithoutBacking(s, bs).(inherits := Reinherited(s, bs, target));
    forall x | Attached(w, x) ensures Attached(s, x) && w.edges[x] == s.edges[x] {
    }
    if target.Some? {
      AddedFilters(w, e, Child(Some(bs), BackingSlot(drv(bs)), target, perms), drv);
    }
  }

  lemma ReinheritedGrounded(s: Shape, bs: Node, target: Option<Node>)
    requires Grounded(s.inherits) && bs in s.inherits &&
             (target.Some? ==> target.value in s.inherits && target.value != bs)
    ensures Grounded(Reinherited(s, bs, target))
  {
    var k := (bs, BackingLink);
    if k in s.links && Attached(s, s.links[k]) {
      ClearedGrounded(s, s.inherits, bs, s.links[k], Below(Arrows(s), s.edges[s.links[k]].target.value));
    }
    if target.Some? && Reach(Upward(s.inherits), target.value, bs) {
      ShortcutGrounded(s.inherits, Disinherited(s, bs), target.value, bs);
    }
  }

  /** bdrv_unset_inherits_from is called for the edge c, having begun at the edge top of root. */
  ghost predicate Unsettable(s: Shape, root: Node, top: EdgeId, c: EdgeId) {
    && Total(s) && Acyclic(Arrows(s)) && top in ChildEdges(s, root) && Attached(s, c)
    && (c == top || (s.edges[c].owner.Some? && Reach(Arrows(s), s.edges[top].target.value, s.edges[c].owner.value)))
  }

  /** It has cleared what is in the region. */
  ghost predicate Unset(start: State, st: State, root: Node, top: EdgeId, region: set<Node>, callers: map<Node, nat>,
                        frozen: set<EdgeId>) {
    && Advances(start, st, callers, frozen)
    && st.shape.edges == start.shape.edges && st.shape.links == start.shape.links && st.next == start.next
    && st.shape.inherits == Cleared(start.shape, start.shape.inherits, root, top, region)
  }

  /** n and what is below the listed edges. */
  ghost predicate Collected(s: Shape, n: Node, done: seq<EdgeId>, region: set<Node>) {
    && n in region && region <= Below(Arrows(s), n)
    && forall e :: e in done ==> Attached(s, e) && Below(Arrows(s), s.edges[e].target.value) <= region
  }

  lemma CollectMore(s: Shape, n: Node, done: seq<EdgeId>, region: set<Node>, e: EdgeId)
    requires Total(s) && Collected(s, n, done, region) && e in ChildEdges(s, n)
    ensures Collected(s, n, done + [e], region + Below(Arrows(s), s.edges[e].target.value))
  {
    var d, v := Arrows(s), s.edges[e].target.value;
    EdgeArrow(s, e);
    ReachArrow(d, n, v);
    forall x | x in Below(d, v) ensures x in Below(d, n) {
      ReachTrans(d, n, v, x);
    }
  }

  lemma SameCleared(s: Shape, r: Shape, inherits: Inherits, root: Node, child: EdgeId, region: set<Node>)
    requires s.edges == r.edges
    ensures Cleared(s, inherits, root, child, region) == Cleared(r, inherits, root, child, region)
  {
    assert ChildEdges(s, root) == ChildEdges(r, root);
  }

  lemma UnsetTarget(s: Shape, root: Node, top: EdgeId, c: EdgeId)
    requires Unsettable(s, root, top, c)
    ensures s.edges[c].target.value in s.inherits &&
            Reach(Arrows(s), s.edges[top].target.value, s.edges[c].target.value)
  {
    var d, n := Arrows(s), s.edges[c].target.value;
    if c == top {
      ReachRefl(d, n);
    } else {
      EdgeArrow(s, c);
      ReachArrow(d, s.edges[c].owner.value, n);
      ReachTrans(d, s.edges[top].target.value, s.edges[c].owner.value, n);
    }
  }

  /** The node itself. */
  lemma UnsetStarts(st: State, root: Node, top: EdgeId, c: EdgeId, n: Node, callers: map<Node, nat>,
                    frozen: set<EdgeId>)
    requires Editable(st, callers, frozen) && Unsettable(st.shape, root, top, c) && st.shape.edges[c].target == Some(n)
    ensures Total(st.shape) && n in st.shape.inherits
    ensures var r := if st.shape.inherits[n] == Some(root) && !OtherChild(st.shape, root, c, n)
                     then SetInheritsFrom(st, n, None) else st;
            Unsetting(st, r, root, top, n, 0, {n}, callers, frozen) && ChildEdges(r.shape, n) == ChildEdges(st.shape, n)
  {
    AdvancesRefl(st, callers, frozen);
    SetInheritsAdvances(st, n, None, callers, frozen);
    OtherBelow(st.shape, root, top, c, n);
    ClearedOne(st.shape, st.shape.inherits, root, top, n);
    NodeCollected(st.shape, n);
  }

  lemma NodeCollected(s: Shape, n: Node)
    requires n in s.inherits
    ensures Collected(s, n, ListOf(ChildEdges(s, n))[..0], {n})
  {
    ReachRefl(Arrows(s), n);
  }

  /** Where the loop over the children of n stands. */
  ghost predicate Unsetting(start: State, st: State, root: Node, top: EdgeId, n: Node, i: nat, region: set<Node>,
                            callers: map<Node, nat>, frozen: set<EdgeId>) {
    && Unset(start, st, root, top, region, callers, frozen)
    && i <= |ListOf(ChildEdges(start.shape, n))| &&
       Collected(start.shape, n, ListOf(ChildEdges(start.shape, n))[..i], region)
  }

  /** What the recursive call for a child edge of n relies on. */
  lemma UnsetBelow(start: State, st: State, root: Node, top: EdgeId, c: EdgeId, n: Node, i: nat, region: set<Node>,
                   callers: map<Node, nat>, frozen: set<EdgeId>)
    requires Unsetting(start, st, root, top, n, i, region, callers, frozen) && i < |ListOf(ChildEdges(start.shape, n))|
    requires Unsettable(start.shape, root, top, c) && start.shape.edges[c].target == Some(n)
    ensures var e := ListOf(ChildEdges(start.shape, n))[i];
            && Editable(st, callers, frozen) && Unsettable(st.shape, root, top, e)
            && |Below(Arrows(st.shape), st.shape.edges[e].target.value)| < |Below(Arrows(start.shape), n)|
  {
    ListMember(ChildEdges(start.shape, n), i);
    var e := ListOf(ChildEdges(start.shape, n))[i];
    ArrowsSame(start.shape, st.shape);
    EdgeArrow(start.shape, e);
    BelowIsSmaller(Arrows(start.shape), n, start.shape.edges[e].target.value);
    UnsetTarget(start.shape, root, top, c);
  }

  lemma UnsetAdded(start: State, before: State, st: State, root: Node, top: EdgeId, region: set<Node>, below: set<Node>,
                   callers: map<Node, nat>, frozen: set<EdgeId>)
    requires Unset(start, before, root, top, region, callers, frozen) &&
             Unset(before, st, root, top, below, callers, frozen)
    ensures Unset(start, st, root, top, region + below, callers, frozen)
  {
    AdvancesTrans(start, before, st, callers, frozen);
    SameCleared(start.shape, before.shape, before.shape.inherits, root, top, below);
    ClearedTwice(start.shape, start.shape.inherits, root, top, region, below);
  }

  lemma UnsetNext(start: State, before: State, st: State, root: Node, top: EdgeId, n: Node, i: nat, region: set<Node>,
                  below: set<Node>, callers: map<Node, nat>, frozen: set<EdgeId>)
    requires Unsetting(start, before, root, top, n, i, region, callers, frozen) &&
             i < |ListOf(ChildEdges(start.shape, n))|
    requires Total(start.shape) && ListOf(ChildEdges(start.shape, n))[i] in before.shape.edges
    requires before.shape.edges[ListOf(ChildEdges(start.shape, n))[i]].target.Some?
    requires below == Below(Arrows(before.shape),
                            before.shape.edges[ListOf(ChildEdges(start.shape, n))[i]].target.value)
    requires Unset(before, st, root, top, below, callers, frozen)
    ensures Unsetting(start, st, root, top, n, i + 1, region + below, callers, frozen)
  {
    var list := ListOf(ChildEdges(start.shape, n));
    ListMember(ChildEdges(start.shape, n), i);
    ArrowsSame(start.shape, before.shape);
    UnsetAdded(start, before, st, root, top, region, below, callers, frozen);
    CollectMore(start.shape, n, list[..i], region, list[i]);
    TakeOneMore(list, i);
  }

  lemma UnsetEnds(start: State, st: State, root: Node, top: EdgeId, n: Node, region: set<Node>, callers: map<Node, nat>,
                  frozen: set<EdgeId>)
    requires Total(start.shape) && n in start.shape.inherits
    requires Unsetting(start, st, root, top, n, |ListOf(ChildEdges(start.shape, n))|, region, callers, frozen)
    ensures Unset(start, st, root, top, Below(Arrows(start.shape), n), callers, frozen)
  {
    TakeAll(ListOf(ChildEdges(start.shape, n)));
    BelowCollected(start.shape, n, region);
  }

  /** The old backing link is gone. */
  ghost predicate BackingRemoved(start: State, st: State, bs: Node, callers: map<Node, nat>, frozen: set<EdgeId>) {
    && Advances(start, st, callers, frozen) && st.next == start.next && (bs, BackingLink) !in st.shape.links
    && (forall k :: k in st.shape.links ==> k in start.shape.links)
    && st.shape.edges == WithoutBacking(start.shape, bs).edges && st.shape.inherits == Disinherited(start.shape, bs)
  }

  lemma BackingUnsettable(s: Shape, bs: Node)
    requires Wf(s) && Acyclic(Arrows(s)) && (bs, BackingLink) in s.links
    ensures var c := s.links[(bs, BackingLink)];
            && Unsettable(s, bs, c, c)
            && Disinherited(s, bs) == Cleared(s, s.inherits, bs, c, Below(Arrows(s), s.edges[c].target.value))
  {
  }

  lemma WithoutBackingIs(s: Shape, bs: Node)
    requires LinksOk(s)
    ensures var k := (bs, BackingLink);
            if k in s.links then s.links[k] in s.edges && WithoutBacking(s, bs).edges == SetTarget(s, s.links[k], None)
            else WithoutBacking(s, bs).edges == s.edges
  {
  }

  lemma RemovesBacking(start: State, st: State, bs: Node, callers: map<Node, nat>, frozen: set<EdgeId>)
    requires Wf(start.shape) && Acyclic(Arrows(start.shape)) && (bs, BackingLink) in start.shape.links &&
             start.shape.links[(bs, BackingLink)] !in frozen
    requires var c := start.shape.links[(bs, BackingLink)];
             Attached(start.shape, c) &&
             Unset(start, st, bs, c, Below(Arrows(start.shape), start.shape.edges[c].target.value), callers, frozen)
    ensures var c := start.shape.links[(bs, BackingLink)];
            Attached(st.shape, c) && BackingRemoved(start, RemoveChild(st, c, frozen), bs, callers, frozen)
  {
    var c := st.shape.links[(bs, BackingLink)];
    BackingUnsettable(start.shape, bs);
    WithoutBackingIs(start.shape, bs);
    LinkRemoved(st, (bs, BackingLink), frozen);
    RemoveAdvances(st, c, callers, frozen);
    AdvancesTrans(start, st, RemoveChild(st, c, frozen), callers, frozen);
  }

  lemma NoBacking(st: State, bs: Node, callers: map<Node, nat>, frozen: set<EdgeId>)
    requires Editable(st, callers, frozen) && (bs, BackingLink) !in st.shape.links
    ensures BackingRemoved(st, st, bs, callers, frozen)
  {
    AdvancesRefl(st, callers, frozen);
  }

  lemma RemovedNext(start: State, st: State, bs: Node, callers: map<Node, nat>, frozen: set<EdgeId>,
                    drv: Node -> Driver)
    requires ReadyState(start, callers, frozen, drv) && BackingRemoved(start, st, bs, callers, frozen)
    requires BackingSlot(drv(bs)).BackingLink? || (bs, BackingSlot(drv(bs))) !in start.shape.links
    ensures Editable(st, callers, frozen) && Acyclic(Arrows(st.shape)) &&
            st.shape.inherits.Keys == start.shape.inherits.Keys
    ensures (bs, BackingSlot(drv(bs))) !in st.shape.links && Arrows(st.shape) == Arrows(WithoutBacking(start.shape, bs))
    ensures Reach(Arrows(st.shape), bs, bs)
  {
    ArrowsSame(st.shape, WithoutBacking(start.shape, bs));
    ReachRefl(Arrows(st.shape), bs);
  }

  /** The new backing link is there. */
  ghost predicate BackingAdded(start: State, st: State, done: bool, c: Child, update: bool, callers: map<Node, nat>,
                               frozen: set<EdgeId>)
    requires c.target.Some?
  {
    && Advances(start, st, callers, frozen)
    && (done ==> st.shape.edges == start.shape.edges[start.next := c]
                 && st.shape.inherits ==
                    if update then start.shape.inherits[c.target.value := c.owner] else start.shape.inherits)
  }

  lemma AddsBacking(start: State, st: State, done: bool, c: Child, update: bool, callers: map<Node, nat>,
                    frozen: set<EdgeId>)
    requires ChildAttached(start, st, done, c, callers, frozen) && c.target.Some? &&
             c.target.value in start.shape.inherits
    ensures c.target.value in st.shape.inherits
    ensures BackingAdded(start, if done && update then SetInheritsFrom(st, c.target.value, c.owner) else st,
                         done, c, update, callers, frozen)
  {
    var t := c.target.value;
    if done && update {
      SetInheritsAdvances(st, t, c.owner, callers, frozen);
      AdvancesTrans(start, st, SetInheritsFrom(st, t, c.owner), callers, frozen);
    }
  }

  lemma RebackedIs(s: Shape, bs: Node, target: Option<Node>, slot: Slot, perms: Perms, e: EdgeId)
    ensures var r, edges := Rebacked(s, bs, target, slot, perms, e), WithoutBacking(s, bs).edges;
            && r.inherits == Reinherited(s, bs, target)
            && r.edges == if target.Some? then edges[e := Child(Some(bs), slot, target, perms)] else edges
  {
  }

  /** The edited shape is the one it is to be. */
  lemma RebackedReached(s: Shape, e: EdgeId, bs: Node, target: Option<Node>, perms: Perms, r: Shape,
                        drv: Node -> Driver)
    requires FiltersOk(s, drv) && Grounded(s.inherits) && bs in s.inherits &&
             (target.Some? ==> target.value in s.inherits && target.value != bs)
    requires Total(r) && r.inherits == Reinherited(s, bs, target)
    requires r.edges == Rebacked(s, bs, target, BackingSlot(drv(bs)), perms, e).edges
    ensures Reached(Rebacked(s, bs, target, BackingSlot(drv(bs)), perms, e), r, drv)
  {
    ReinheritedGrounded(s, bs, target);
    RebackedFilters(s, bs, target, perms, e, drv);
  }

  lemma UnbackedEnds(start: State, st: State, bs: Node, perms: Perms, callers: map<Node, nat>, frozen: set<EdgeId>,
                     drv: Node -> Driver)
    requires ReadyState(start, callers, frozen, drv) && bs in start.shape.inherits &&
             BackingRemoved(start, st, bs, callers, frozen)
    ensures Edited(start, st, true, Rebacked(start.shape, bs, None, BackingSlot(drv(bs)), perms, start.next), callers,
                   frozen, drv)
  {
    RebackedReached(start.shape, start.next, bs, None, perms, st.shape, drv);
  }

  lemma RebackedEnds(start: State, removed: State, st: State, done: bool, bs: Node, target: Node, perms: Perms,
                     callers: map<Node, nat>, frozen: set<EdgeId>, drv: Node -> Driver)
    requires ReadyState(start, callers, frozen, drv) && bs in start.shape.inherits && target in start.shape.inherits
    requires BackingRemoved(start, removed, bs, callers, frozen)
    requires BackingAdded(removed, st, done, Child(Some(bs), BackingSlot(drv(bs)), Some(target), perms),
                          Reach(Upward(start.shape.inherits), target, bs), callers, frozen)
    requires done ==> target != bs
    ensures Edited(start, st, done, Rebacked(start.shape, bs, Some(target), BackingSlot(drv(bs)), perms, start.next),
                   callers, frozen, drv)
  {
    AdvancesTrans(start, removed, st, callers, frozen);
    if done {
      RebackedIs(start.shape, bs, Some(target), BackingSlot(drv(bs)), perms, start.next);
      RebackedReached(start.shape, start.next, bs, Some(target), perms, st.shape, drv);
    }
  }

  // ------------------------------------------------------------ bdrv_unref_child

  /** The shape s without the edge e, and inherits_from as it is then. */
  ghost function Unlinked(s: Shape, e: EdgeId): Shape
    requires Attached(s, e)
  {
    var c := s.edges[e];
    s.(edges := SetTarget(s, e, None),
       inherits := if c.owner.Some? then Cleared(s, s.inherits, c.owner.value, e, Below(Arrows(s), c.target.value))
                   else s.inherits)
  }

  /** Before the edge is removed, inherits_from is cleared below it, if it has an owner. */
  ghost predicate Disowned(start: State, st: State, e: EdgeId, callers: map<Node, nat>, frozen: set<EdgeId>) {
    && Attached(start.shape, e) && Advances(start, st, callers, frozen)
    && st.shape.edges == start.shape.edges && st.shape.inherits == Unlinked(start.shape, e).inherits
  }

  lemma UnlinkedReached(s: Shape, e: EdgeId, r: Shape, drv: Node -> Driver)
    requires Total(s) && Attached(s, e) && FiltersOk(s, drv) && Grounded(s.inherits)
    requires r.edges == SetTarget(s, e, None) && r.inherits == Unlinked(s, e).inherits
    ensures Reached(Unlinked(s, e), r, drv)
  {
    EqualEdges(Unlinked(s, e), r);
    UnlinkedTotal(s, e);
    UnlinkedFilters(s, e, drv);
    UnlinkedGrounded(s, e);
  }

  lemma UnlinkedTotal(s: Shape, e: EdgeId)
    requires Total(s) && Attached(s, e)
    ensures Total(Unlinked(s, e))
  {
  }

  lemma UnlinkedFilters(s: Shape, e: EdgeId, drv: Node -> Driver)
    requires Attached(s, e) && FiltersOk(s, drv)
    ensures FiltersOk(Unlinked(s, e), drv)
  {
    forall x | Attached(Unlinked(s, e), x) ensures Attached(s, x) && Unlinked(s, e).edges[x] == s.edges[x] {
    }
  }

  lemma UnlinkedGrounded(s: Shape, e: EdgeId)
    requires Attached(s, e) && Grounded(s.inherits)
    ensures Grounded(Unlinked(s, e).inherits)
  {
    var c := s.edges[e];
    if c.owner.Some? {
      ClearedGrounded(s, s.inherits, c.owner.value, e, Below(Arrows(s), c.target.value));
    }
  }

  lemma UnlinkEnds(start: State, st: State, e: EdgeId, callers: map<Node, nat>, frozen: set<EdgeId>,
                   drv: Node -> Driver)
    requires ReadyState(start, callers, frozen, drv) && Disowned(start, st, e, callers, frozen) && e !in frozen
    ensures Attached(st.shape, e)
    ensures Edited(start, RemoveChild(st, e, frozen), true, Unlinked(start.shape, e), callers, frozen, drv)
  {
    RemoveAdvances(st, e, callers, frozen);
    AdvancesTrans(start, st, RemoveChild(st, e, frozen), callers, frozen);
    UnlinkedReached(start.shape, e, RemoveChild(st, e, frozen).shape, drv);
  }

  /** The edge is gone for good; the permissions below are refreshed if they can be, and else left alone. */
  ghost predicate EdgeGone(start: State, st: State, e: EdgeId, root: Node, h: Hooks, callers: map<Node, nat>,
                           frozen: set<EdgeId>, drv: Node -> Driver)
    requires Attached(start.shape, e)
  {
    var goal := Unlinked(start.shape, e);
    && ReadyState(st, callers, frozen, drv) && FrozenKept(start.shape, st.shape, frozen)
    && SameAttached(goal, st.shape) && st.shape.inherits == goal.inherits
    && if Refreshable(goal, h, [root])
       then Refreshes(goal, h, [root], PermsOf(st.shape)) && AllConsistent(st.shape, h, [root])
       else PermsOf(st.shape) == PermsOf(goal)
  }

  // ------------------------------------------------------------ permissions

  /** What the refresh leaves when it is done, or has failed. */
  ghost predicate Refreshed(start: State, st: State, done: bool, roots: seq<Node>, h: Hooks, callers: map<Node, nat>,
                            frozen: set<EdgeId>) {
    && Advances(start, st, callers, frozen) && SameAttached(start.shape, st.shape) &&
       st.shape.inherits == start.shape.inherits
    && (done ==> Refreshes(start.shape, h, roots, PermsOf(st.shape)))
  }

  /** The state after the permissions q of the listed edges have been set. */
  function SetPerms(st: State, q: Assignment, list: seq<EdgeId>): State
    decreases |list|
  {
    if list == [] then st
    else
      var r := SetPerms(st, q, list[..|list| - 1]);
      var e := list[|list| - 1];
      if e in r.shape.edges && e in q then SetPerm(r, e, q[e]) else r
  }

  /** Only permissions are different, and those of the listed edges are the new ones. */
  ghost predicate PermsSet(s: Shape, r: Shape, q: Assignment, list: seq<EdgeId>) {
    && r.inherits == s.inherits && r.edges.Keys == s.edges.Keys
    && forall e :: e in s.edges ==> r.edges[e] == if e in list && e in q then s.edges[e].(perms := q[e]) else s.edges[e]
  }

  lemma PermsSetMore(s: Shape, r: Shape, q: Assignment, list: seq<EdgeId>, e: EdgeId)
    requires PermsSet(s, r, q, list) && e in s.edges && e in q
    ensures PermsSet(s, r.(edges := r.edges[e := r.edges[e].(perms := q[e])]), q, list + [e])
  {
  }

  lemma {:induction false} SetPermsAdvances(st: State, q: Assignment, list: seq<EdgeId>, callers: map<Node, nat>,
                                            frozen: set<EdgeId>)
    requires Editable(st, callers, frozen) && forall e :: e in list ==> e in st.shape.edges && e in q
    ensures Advances(st, SetPerms(st, q, list), callers, frozen) &&
            PermsSet(st.shape, SetPerms(st, q, list).shape, q, list)
    decreases |list|
  {
    if list == [] {
      AdvancesRefl(st, callers, frozen);
    } else {
      var rest, e := list[..|list| - 1], list[|list| - 1];
      assert list == rest + [e];
      SetPermsAdvances(st, q, rest, callers, frozen);
      var r := SetPerms(st, q, rest);
      PermsSetMore(st.shape, r.shape, q, rest, e);
      SetPermAdvances(r, e, q[e], callers, frozen);
      AdvancesTrans(st, r, SetPerm(r, e, q[e]), callers, frozen);
    }
  }

  lemma AllPermsSet(s: Shape, r: Shape, q: Assignment, list: seq<EdgeId>)
    requires PermsSet(s, r, q, list) && q.Keys == PermsOf(s).Keys && forall e :: e in q ==> e in list
    ensures SameAttached(s, r) && PermsOf(r) == q
  {
    forall e ensures Attached(s, e) <==> Attached(r, e) {
    }
    PermsAre(s, r, q);
  }

  lemma RefreshEnds(start: State, q: Assignment, list: seq<EdgeId>, done: bool, roots: seq<Node>, h: Hooks,
                    callers: map<Node, nat>, frozen: set<EdgeId>)
    requires Editable(start, callers, frozen) && q.Keys == PermsOf(start.shape).Keys &&
             (forall e :: e in list <==> e in q)
    requires done ==> Refreshes(start.shape, h, roots, q)
    ensures Refreshed(start, SetPerms(start, q, list), done, roots, h, callers, frozen)
    ensures PermsOf(SetPerms(start, q, list).shape) == q
  {
    var st := SetPerms(start, q, list);
    SetPermsAdvances(start, q, list, callers, frozen);
    AllPermsSet(start.shape, st.shape, q, list);
  }

  // ------------------------------------------------------------ chains

  lemma LinkLeadsAway(s: Shape, drv: Node -> Driver, n: Node)
    requires Wf(s) && Acyclic(Arrows(s)) && ChainLink(s, drv, n).Some?
    ensures var e := ChainLink(s, drv, n).value;
            Attached(s, e) && s.edges[e].target != Some(n) && s.edges[e].target.value in s.inherits
  {
    EdgeArrow(s, ChainLink(s, drv, n).value);
    ReachRefl(Arrows(s), n);
  }

  predicate LeadsTo(s: Shape, e: EdgeId, nodes: set<Node>) {
    Attached(s, e) && s.edges[e].target.value in nodes
  }

  lemma FrozenKeptTrans(s: Shape, a: Shape, r: Shape, frozen: set<EdgeId>)
    requires FrozenKept(s, a, frozen) && FrozenKept(a, r, frozen)
    ensures FrozenKept(s, r, frozen)
  {
  }

  /** The links of a chain can be frozen between transactions. */
  lemma FrozenMore(st: State, links: seq<EdgeId>, drv: Node -> Driver, bs: Node, base: Option<Node>, was: set<EdgeId>,
                   frozen: set<EdgeId>)
    requires Sealed(st, was) && st.log == [] && IsChain(st.shape, drv, bs, base, links) &&
             frozen == was + Elements(links)
    ensures Sealed(st, frozen)
  {
    forall e | e in links ensures e in st.shape.edges {
      var k :| 0 <= k < |links| && links[k] == e;
      ChainAfter(st.shape, drv, bs, base, links, k);
    }
  }
}
