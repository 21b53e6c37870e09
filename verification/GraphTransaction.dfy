/**
 The graph-changing operations of block.c as transactions: bdrv_replace_node_common,
 bdrv_append and bdrv_set_backing_hd.  Each makes its edits one by one, refreshes the
 permissions of what it touched, and commits everything or rolls everything back.
 */
module GraphTransaction {
  import opened Options
  import opened Sequences
  import opened Digraph
  import opened Permissions
  import opened GraphEdits
  import opened GraphOperations
  import opened GraphPermissions
  import opened GraphGoals
  import opened BackingChains
  import opened Inheritance
  import TopologicalOrder
  import PermissionTransaction

  /** The shape once every logged removal has freed its edge. */
  function Committed(s: Shape, log: seq<Action>): Shape
    decreases log
  {
    if log == [] then s
    else
      var a := log[|log| - 1];
      Committed(if a.Removed? then s.(edges := s.edges - {a.edge}) else s, log[..|log| - 1])
  }

  lemma {:induction false} CommittedDrops(s: Shape, log: seq<Action>)
    ensures var r := Committed(s, log);
            && r.inherits == s.inherits && r.links == s.links
            && forall e :: e in r.edges <==> e in s.edges && Removed(e) !in log
    ensures var r := Committed(s, log); forall e :: e in r.edges ==> e in s.edges && r.edges[e] == s.edges[e]
    decreases log
  {
    if log != [] {
      var a, rest := log[|log| - 1], log[..|log| - 1];
      assert log == rest + [a];
      CommittedDrops(if a.Removed? then s.(edges := s.edges - {a.edge}) else s, rest);
    }
  }

  /** Committing frees only empty edges. */
  lemma CommitKeepsAttached(s: Shape, log: seq<Action>)
    requires forall e :: Removed(e) in log ==> e in s.edges && s.edges[e].target.None?
    ensures SameEdges(s, Committed(s, log)) && NoNewEdges(s, Committed(s, log))
  {
    CommittedDrops(s, log);
  }

  lemma CommitKeepsFrozen(start: Shape, s: Shape, log: seq<Action>, frozen: set<EdgeId>)
    requires FrozenKept(start, s, frozen) && forall e :: e in frozen ==> Removed(e) !in log
    ensures FrozenKept(start, Committed(s, log), frozen)
  {
    CommittedDrops(s, log);
  }

  /** A committed transaction keeps frozen edges and closes no cycle. */
  lemma CommitAdvanced(start: State, st: State, callers: map<Node, nat>, frozen: set<EdgeId>)
    requires Advances(start, st, callers, frozen)
    ensures var r := Committed(st.shape, st.log);
            && FrozenKept(start.shape, r, frozen) && SameEdges(st.shape, r) && r.inherits == st.shape.inherits
            && (Acyclic(Arrows(start.shape)) ==> Acyclic(Arrows(r)))
  {
    CommittedDrops(st.shape, st.log);
    CommitKeepsAttached(st.shape, st.log);
    CommitKeepsFrozen(start.shape, st.shape, st.log, frozen);
    if Acyclic(Arrows(start.shape)) {
      FewerKeepAcyclic(st.shape, Committed(st.shape, st.log));
    }
  }

  /** The end of a transaction: the graph is the goal, or what it was at the start. */
  lemma Finishes(start: State, goal: Shape, edited: State, last: State, st: State, done: bool, roots: seq<Node>,
                 h: Hooks, callers: map<Node, nat>, frozen: set<EdgeId>, drv: Node -> Driver)
    requires ReadyState(start, callers, frozen, drv) &&
             (done ==> Edited(start, edited, true, goal, callers, frozen, drv))
    requires done ==> Refreshed(edited, last, true, roots, h, callers, frozen)
    requires Over(start, last, st, done, callers, frozen)
    ensures Finished(start, st, done, goal, roots, h, callers, frozen, drv)
  {
    if done {
      ReachedEnds(goal, edited.shape, last.shape, st.shape, drv, h, roots);
    }
  }

  /** A transaction that began at start and had got to last is over, committed or not. */
  ghost predicate Over(start: State, last: State, st: State, done: bool, callers: map<Node, nat>, frozen: set<EdgeId>) {
    && Editable(st, callers, frozen) && st.log == [] && Acyclic(Arrows(st.shape)) &&
       FrozenKept(start.shape, st.shape, frozen)
    && if done then SameEdges(last.shape, st.shape) && st.shape.inherits == last.shape.inherits && Total(last.shape)
       else st.shape == start.shape
  }

  lemma CommitIsOver(start: State, last: State, st: State, callers: map<Node, nat>, frozen: set<EdgeId>,
                     drv: Node -> Driver)
    requires ReadyState(start, callers, frozen, drv) && Advances(start, last, callers, frozen)
    requires Good(st, callers) && st.log == [] && st.shape == Committed(last.shape, last.log)
    ensures Over(start, last, st, true, callers, frozen)
  {
    CommitAdvanced(start, last, callers, frozen);
  }

  lemma AbortIsOver(start: State, last: State, st: State, callers: map<Node, nat>, frozen: set<EdgeId>,
                    drv: Node -> Driver)
    requires ReadyState(start, callers, frozen, drv) && Advances(start, last, callers, frozen)
    requires Good(st, callers) && st.log == [] && st.shape == Undone(last)
    ensures Over(start, last, st, false, callers, frozen)
  {
  }

  /** What a user of the graph may ask for. */
  datatype Operation =
    | Replacing(from: Node, to: Node, autoSkip: bool)
    | Dropping(bs: Node)
    | Appending(bsNew: Node, top: Node, perms: Perms, aioRefused: bool)
    | SettingBacking(bs: Node, target: Option<Node>, perms: Perms, aioRefused: bool)
    | Attaching(owner: Node, role: Role, t: Node, perms: Perms, aioRefused: bool)
    | RootAttaching(t: Node, perms: Perms, aioRefused: bool)
    | Unlinking(e: EdgeId)
    | RunningUnref(n: Node)

  /** bdrv_do_refresh_perms, apart from the lists it goes over. */
  method RunRefresh(g: Graph, h: Hooks, perms: Assignment, list: seq<Node>)
    returns (ok: bool, q: Assignment, checked: seq<(Node, Perms)>)
    requires g.Valid() && Covers(perms, g) && RefreshList(g, list)
    ensures q.Keys == perms.Keys && ok == Refresh(g, h, perms, list).Some?
    ensures ok ==> q == Refresh(g, h, perms, list).value
    ensures ok ==> Covers(q, g)
    ensures ok ==> checked == PermissionTransaction.WithCumulative(g, q, PermissionTransaction.Drivers(h, list))
  {
    var refresh := new PermissionTransaction.Transaction(g, h, perms);
    ok := refresh.DoRefreshPerms(list);
    q, checked := refresh.perms, refresh.checked;
    assert ok ==> checked == PermissionTransaction.WithCumulative(g, q, PermissionTransaction.Drivers(h, list)) + [];
  }

  /**
   The drivers of the nodes below the roots have been told their cumulative permissions, each driver that
   there is once.
   */
  ghost predicate Heard(s: Shape, h: Hooks, roots: seq<Node>, q: Assignment, told: seq<(Node, Perms)>,
                        order: seq<Node>) {
    && RefreshList(GraphOf(s), order) && Elements(order) == BelowAll(Arrows(s), roots) && Covers(q, GraphOf(s))
    && told == PermissionTransaction.WithCumulative(GraphOf(s), q, PermissionTransaction.Drivers(h, order))
  }

  /** What the operations find in the graph besides its state. */
  datatype Setting = Setting(
    frozen: set<EdgeId>,     // the edges with c->frozen
    stay: set<EdgeId>,       // those whose class has stay_at_node
    inactive: set<Node>,     // the nodes with BDRV_O_INACTIVE
    drv: Node -> Driver,
    h: Hooks)
  {
    /** The checks of bdrv_attach_child_noperm and bdrv_attach_child_common, apart from the one for cycles. */
    predicate AttachRefused(owner: Node, t: Node, perms: Perms, aioRefused: bool) {
      (t in inactive && (owner !in inactive || perms.perm - {ConsistentRead} != {})) || aioRefused
    }

    /** The checks of bdrv_attach_child_common for an edge without an owner. */
    predicate RootRefused(t: Node, perms: Perms, aioRefused: bool) {
      (t in inactive && perms.perm - {ConsistentRead} != {}) || aioRefused
    }

    /** What bdrv_attach_child asks of a node that gets a child. */
    predicate MayAttach(s: Shape, owner: Node, role: Role, t: Node) {
      && owner in s.inherits && t in s.inherits && h.driver(owner)
      && RoleOk(drv(owner), role) && (owner, SlotOf(drv(owner), role)) !in s.links
    }

    /** The checks of bdrv_set_file_or_backing_noperm on bs. */
    predicate BackingRefused(s: Shape, bs: Node) {
      !h.driver(bs) || BackingFrozen(s, bs, frozen) || (!drv(bs).isFilter && !drv(bs).supportsBacking)
    }

    /** What bdrv_append asks of bsNew. */
    predicate MayAppend(s: Shape, bsNew: Node, top: Node) {
      MayAttach(s, bsNew, BackingRole(drv(bsNew)), top)
    }

    /** What bdrv_set_backing_hd asks of bs and its new backing node. */
    predicate MaySetBacking(s: Shape, bs: Node, target: Option<Node>) {
      && bs in s.inherits && (target.Some? ==> target.value in s.inherits)
      && (target.Some? && BackingSlot(drv(bs)).FileLink? ==> (bs, FileLink) !in s.links)
    }
  }

  /** tran_abort */
  method Abort(st: State, ghost frozen: set<EdgeId>, ghost callers: map<Node, nat>) returns (r: State)
    requires Good(st, callers) && Thawed(st.log, frozen)
    ensures Good(r, callers) && r.log == [] && r.shape == Undone(st)
  {
    r := st;
    while r.log != []
      invariant Good(r, callers) && Undone(r) == Undone(st) && Thawed(r.log, frozen)
      decreases |r.log|
    {
      AbortLastKeeps(r, callers, frozen);
      r := AbortLast(r, frozen);
    }
  }

  /** tran_commit */
  method Commit(st: State, ghost callers: map<Node, nat>) returns (r: State)
    requires Good(st, callers) && RemovedOk(st)
    ensures Good(r, callers) && r.log == [] && r.shape == Committed(st.shape, st.log)
  {
    r := st;
    while r.log != []
      invariant Committing(r, callers) && Committed(r.shape, r.log) == Committed(st.shape, st.log)
      decreases |r.log|
    {
      CommitLastKeeps(r, callers);
      r := CommitLast(r);
    }
  }

  /** tran_finalize of a transaction that began at start. */
  method Finalize(st: State, ok: bool, ghost start: State, x: Setting, ghost callers: map<Node, nat>) returns (r: State)
    requires ReadyState(start, callers, x.frozen, x.drv) && Advances(start, st, callers, x.frozen)
    ensures Over(start, st, r, ok, callers, x.frozen)
  {
    if ok {
      r := Commit(st, callers);
      CommitIsOver(start, st, r, callers, x.frozen, x.drv);
    } else {
      r := Abort(st, x.frozen, callers);
      AbortIsOver(start, st, r, callers, x.frozen, x.drv);
    }
  }

  /** bdrv_replace_node_noperm */
  method ReplaceNodeNoperm(st: State, parents: seq<EdgeId>, to: Node, autoSkip: bool, x: Setting)
    returns (ok: bool, r: State)
    requires Total(st.shape) && to in st.shape.inherits
    requires Pointed(st.shape, parents, to) && forall c :: c in parents ==> Attached(st.shape, c)
    ensures (r, ok) == ReplaceParents(st, parents, x.stay, x.frozen, to, autoSkip)
  {
    r := st;
    var i := 0;
    while i < |parents|
      invariant i <= |parents|
      invariant Total(r.shape) && to in r.shape.inherits
      invariant Pointed(r.shape, parents[i..], to) && forall c :: c in parents ==> Attached(r.shape, c)
      invariant ReplaceParents(st, parents, x.stay, x.frozen, to, autoSkip) ==
                ReplaceParents(r, parents[i..], x.stay, x.frozen, to, autoSkip)
    {
      var c := parents[i];
      assert parents[i..][1..] == parents[i + 1..];
      PointedRest(r, parents[i..], to, x.frozen);
      var update := ShouldUpdateChild(r.shape, c, c in x.stay, to);
      if !update {
        if !autoSkip {
          return false, r;
        }
      } else if c in x.frozen {
        return false, r;
      } else {
        r := ReplaceChild(r, c, Some(to), x.frozen);
      }
      i := i + 1;
    }
    return true, r;
  }

  /** The loop of bdrv_replace_node_noperm over all parents of `from`. */
  method ReplaceNode(st: State, from: Node, parents: seq<EdgeId>, to: Node, autoSkip: bool, x: Setting,
                     ghost callers: map<Node, nat>)
    returns (ok: bool, r: State)
    requires Editable(st, callers, x.frozen) && Acyclic(Arrows(st.shape)) && to in st.shape.inherits && from != to
    requires ParentsOf(st.shape, from, parents)
    ensures ok <==> NoneStops(parents, Movable(st.shape, x.stay, to), x.frozen, autoSkip)
    ensures NodeReplaced(st, r, ok, Movers(parents, Movable(st.shape, x.stay, to)), to, callers, x.frozen)
  {
    ReplaceNodeMoves(st, from, parents, to, autoSkip, x.stay, callers, x.frozen);
    ok, r := ReplaceNodeNoperm(st, parents, to, autoSkip, x);
  }

  // ------------------------------------------------------------ permissions

  /** The order in which bdrv_list_refresh_perms visits the nodes below the roots. */
  method RefreshOrder(s: Shape, roots: seq<Node>) returns (list: seq<Node>)
    requires Total(s) && Acyclic(Arrows(s)) && AreNodes(s, roots)
    ensures RefreshList(GraphOf(s), list) && Elements(list) == BelowAll(Arrows(s), roots)
  {
    var g := GraphOf(s);
    GraphOfValid(s);
    DownOfGraph(s);
    DownIsArrows(g);
    list := TopologicalOrder.ListDfs(g.ChildNodes(), roots);
    forall n ensures n in Elements(list) <==> n in BelowAll(Arrows(s), roots) {
      if n in BelowAll(Arrows(s), roots) {
        var r :| r in roots && Reach(Arrows(s), r, n);
        var i :| 0 <= i < |roots| && roots[i] == r;
        assert n in Below(Down(g), roots[i]);
      }
    }
  }

  /** The writes that a refresh has made. */
  method WritePerms(st: State, q: Assignment, list: seq<EdgeId>) returns (r: State)
    ensures r == SetPerms(st, q, list)
  {
    r := st;
    for i := 0 to |list|
      invariant r == SetPerms(st, q, list[..i])
    {
      assert list[..i + 1][..i] == list[..i];
      if list[i] in r.shape.edges && list[i] in q {
        r := SetPerm(r, list[i], q[list[i]]);
      }
    }
    assert list[..|list|] == list;
  }

  /** bdrv_refresh_perms and bdrv_list_refresh_perms: succeeds exactly when there are consistent permissions to find. */
  method RefreshPerms(st: State, roots: seq<Node>, x: Setting, ghost callers: map<Node, nat>)
    returns (ok: bool, r: State, checked: seq<(Node, Perms)>, ghost order: seq<Node>)
    requires Editable(st, callers, x.frozen) && Acyclic(Arrows(st.shape)) && AreNodes(st.shape, roots)
    ensures ok <==> Refreshable(st.shape, x.h, roots)
    ensures Refreshed(st, r, ok, roots, x.h, callers, x.frozen)
    ensures ok ==> Heard(st.shape, x.h, roots, PermsOf(r.shape), checked, order)
  {
    var visited := RefreshOrder(st.shape, roots);
    order := visited;
    RefreshIs(st.shape, x.h, roots, order);
    var q;
    ok, q, checked := RunRefresh(GraphOf(st.shape), x.h, PermsOf(st.shape), visited);
    var list := ListOf(q.Keys);
    RefreshEnds(st, q, list, ok, roots, x.h, callers, x.frozen);
    r := WritePerms(st, q, list);
  }

  /** The drivers are told at commit what their checks have accepted: the attached edges are the same. */
  lemma HeardStill(s: Shape, last: Shape, r: Shape, h: Hooks, roots: seq<Node>, told: seq<(Node, Perms)>,
                   order: seq<Node>)
    requires SameAttached(s, last) && SameEdges(last, r) && Total(s) && Total(r)
    requires Heard(s, h, roots, PermsOf(last), told, order)
    ensures Heard(r, h, roots, PermsOf(r), told, order)
  {
    SamePermissions(last, r);
    SameAttachedTrans(s, last, r);
    SameGraph(s, r);
    DownOfGraph(s);
    DownOfGraph(r);
  }

  /**
   The end of an operation: unless it failed already, the permissions are refreshed, and tran_finalize
   follows, which tells the drivers.
   */
  method Finish(st: State, soFar: bool, roots: seq<Node>, ghost start: State, ghost goal: Shape, x: Setting,
                ghost callers: map<Node, nat>)
    returns (ok: bool, r: State, told: seq<(Node, Perms)>, ghost order: seq<Node>)
    requires ReadyState(start, callers, x.frozen, x.drv) && Edited(start, st, soFar, goal, callers, x.frozen, x.drv)
    requires AreNodes(start.shape, roots)
    ensures ok <==> soFar && Refreshable(goal, x.h, roots)
    ensures Finished(start, r, ok, goal, roots, x.h, callers, x.frozen, x.drv)
    ensures if ok then Heard(r.shape, x.h, roots, PermsOf(r.shape), told, order) else told == []
  {
    ok, r, told, order := soFar, st, [], [];
    if ok {
      EditedRefresh(start, st, goal, x.h, roots, callers, x.frozen, x.drv);
      ok, r, told, order := RefreshPerms(st, roots, x, callers);
      AdvancesTrans(start, st, r, callers, x.frozen);
    }
    ghost var last := r;
    r := Finalize(r, ok, start, x, callers);
    if ok {
      HeardStill(st.shape, last.shape, r.shape, x.h, roots, told, order);
    } else {
      told := [];
    }
    Finishes(start, goal, st, last, r, ok, roots, x.h, callers, x.frozen, x.drv);
  }

  // ------------------------------------------------------------ the edits of the operations

  /** The edits of bdrv_replace_node_common. */
  method ReplaceEdits(st: State, from: Node, parents: seq<EdgeId>, to: Node, autoSkip: bool, detach: Option<EdgeId>,
                      x: Setting, ghost callers: map<Node, nat>) returns (ok: bool, r: State)
    requires ReadyState(st, callers, x.frozen, x.drv) && to in st.shape.inherits && from != to &&
             ParentsOf(st.shape, from, parents)
    requires detach.Some? ==> detach.value in Pointing(st.shape, to) && detach.value !in x.frozen
    ensures ok <==> NoneStops(parents, Movable(st.shape, x.stay, to), x.frozen, autoSkip)
    ensures Edited(st, r, ok, Rewire(st.shape, Movers(parents, Movable(st.shape, x.stay, to)), detach, to), callers,
                   x.frozen, x.drv)
  {
    ok, r := ReplaceNode(st, from, parents, to, autoSkip, x, callers);
    if ok {
      ReplaceEnds(st, r, from, parents, to, detach, x.stay, callers, x.frozen, x.drv);
      if detach.Some? {
        r := RemoveChild(r, detach.value, x.frozen);
      }
    }
  }

  /** bdrv_recurse_has_child */
  method HasChild(s: Shape, bs: Node, child: Node) returns (r: bool)
    requires Total(s) && Acyclic(Arrows(s)) && bs in s.inherits
    ensures r <==> Reach(Arrows(s), bs, child)
  {
    ArrowsClosed(s);
    HasChildIsReach(Arrows(s), bs, child);
    r := RecurseHasChild(Arrows(s), bs, child);
  }

  /** bdrv_attach_child_noperm, of the node t as a child of the node owner; perms is what the driver asks for it. */
  method AttachChildNoperm(st: State, owner: Node, role: Role, t: Node, perms: Perms, aioRefused: bool, x: Setting,
                           ghost callers: map<Node, nat>)
    returns (ok: bool, r: State)
    requires Editable(st, callers, x.frozen) && Acyclic(Arrows(st.shape)) && x.MayAttach(st.shape, owner, role, t)
    ensures ok <==> !x.AttachRefused(owner, t, perms, aioRefused) && !Reach(Arrows(st.shape), t, owner)
    ensures ChildAttached(st, r, ok, Child(Some(owner), SlotOf(x.drv(owner), role), Some(t), perms), callers, x.frozen)
  {
    var cycle := HasChild(st.shape, t, owner);
    if cycle || x.AttachRefused(owner, t, perms, aioRefused) {
      AdvancesRefl(st, callers, x.frozen);
      return false, st;
    }
    var slot := SlotOf(x.drv(owner), role);
    ChildAttaches(st, Some(owner), slot, t, perms, callers, x.frozen);
    return true, AttachChild(st, Some(owner), slot, t, perms);
  }

  /** The edits of bdrv_append. */
  method AppendEdits(st: State, bsNew: Node, top: Node, parents: seq<EdgeId>, perms: Perms, aioRefused: bool,
                     x: Setting, ghost callers: map<Node, nat>) returns (ok: bool, r: State)
    requires ReadyState(st, callers, x.frozen, x.drv) && x.MayAppend(st.shape, bsNew, top) &&
             ParentsOf(st.shape, top, parents)
    ensures ok <==> !x.AttachRefused(bsNew, top, perms, aioRefused) && !Reach(Arrows(st.shape), top, bsNew)
                    && NoneStops(parents, Movable(st.shape, x.stay, bsNew), x.frozen, true)
    ensures Edited(st, r, ok, Appended(st, bsNew, top, parents, perms, x.stay, x.drv), callers, x.frozen, x.drv)
  {
    var attached;
    ok, attached := AttachChildNoperm(st, bsNew, BackingRole(x.drv(bsNew)), top, perms, aioRefused, x, callers);
    r := attached;
    if ok {
      AppendNext(st, attached, bsNew, top, parents, perms, x.stay, callers, x.frozen, x.drv);
      ok, r := ReplaceNode(attached, top, [st.next] + parents, bsNew, true, x, callers);
      AppendEnds(st, attached, r, bsNew, top, parents, perms, x.stay, ok, callers, x.frozen, x.drv);
    }
  }

  /**
   bdrv_unset_inherits_from, from the child edge c of some node downwards.  The search began at the
   edge top of root, and clears what inherits from root and has no other edge from it.
   */
  method UnsetInheritsFrom(st: State, root: Node, ghost top: EdgeId, c: EdgeId, ghost frozen: set<EdgeId>,
                           ghost callers: map<Node, nat>)
    returns (r: State)
    requires Editable(st, callers, frozen) && Unsettable(st.shape, root, top, c)
    ensures Unset(st, r, root, top, Below(Arrows(st.shape), st.shape.edges[c].target.value), callers, frozen)
    decreases |Below(Arrows(st.shape), st.shape.edges[c].target.value)|, 1
  {
    var n := st.shape.edges[c].target.value;
    UnsetStarts(st, root, top, c, n, callers, frozen);
    r := if st.shape.inherits[n] == Some(root) && !OtherChild(st.shape, root, c, n)
      then SetInheritsFrom(st, n, None) else st;
    r := UnsetChildren(st, r, root, top, c, n, frozen, callers);
  }

  /** The loop of bdrv_unset_inherits_from over the children of n. */
  method UnsetChildren(ghost start: State, st: State, root: Node, ghost top: EdgeId, ghost c: EdgeId, n: Node,
                       ghost frozen: set<EdgeId>, ghost callers: map<Node, nat>) returns (r: State)
    requires Unsettable(start.shape, root, top, c) && start.shape.edges[c].target == Some(n) &&
             n in start.shape.inherits
    requires Unsetting(start, st, root, top, n, 0, {n}, callers, frozen) &&
             ChildEdges(st.shape, n) == ChildEdges(start.shape, n)
    ensures Unset(start, r, root, top, Below(Arrows(start.shape), n), callers, frozen)
    decreases |Below(Arrows(start.shape), n)|, 0
  {
    r := st;
    var list := ListOf(ChildEdges(st.shape, n));
    ghost var region := {n};
    for i := 0 to |list|
      invariant Unsetting(start, r, root, top, n, i, region, callers, frozen)
    {
      UnsetBelow(start, r, root, top, c, n, i, region, callers, frozen);
      ghost var before, below := r, Below(Arrows(r.shape), r.shape.edges[list[i]].target.value);
      r := UnsetInheritsFrom(r, root, top, list[i], frozen, callers);
      UnsetNext(start, before, r, root, top, n, i, region, below, callers, frozen);
      region := region + below;
    }
    UnsetEnds(start, r, root, top, n, region, callers, frozen);
  }

  /** The first half of bdrv_set_file_or_backing_noperm: the old backing link goes away. */
  method RemoveBacking(st: State, bs: Node, frozen: set<EdgeId>, ghost callers: map<Node, nat>) returns (r: State)
    requires Editable(st, callers, frozen) && Acyclic(Arrows(st.shape)) && !BackingFrozen(st.shape, bs, frozen)
    ensures BackingRemoved(st, r, bs, callers, frozen)
  {
    if (bs, BackingLink) in st.shape.links {
      var child := st.shape.links[(bs, BackingLink)];
      BackingUnsettable(st.shape, bs);
      r := UnsetInheritsFrom(st, bs, child, child, frozen, callers);
      RemovesBacking(st, r, bs, callers, frozen);
      r := RemoveChild(r, child, frozen);
    } else {
      NoBacking(st, bs, callers, frozen);
      r := st;
    }
  }

  /** The second half of bdrv_set_file_or_backing_noperm: the new backing link. */
  method AddBacking(st: State, bs: Node, target: Node, perms: Perms, aioRefused: bool, update: bool, x: Setting,
                    ghost callers: map<Node, nat>)
    returns (ok: bool, r: State)
    requires Editable(st, callers, x.frozen) && Acyclic(Arrows(st.shape))
    requires x.MayAttach(st.shape, bs, BackingRole(x.drv(bs)), target)
    ensures ok <==> !x.AttachRefused(bs, target, perms, aioRefused) && !Reach(Arrows(st.shape), target, bs)
    ensures BackingAdded(st, r, ok, Child(Some(bs), BackingSlot(x.drv(bs)), Some(target), perms), update, callers,
                         x.frozen)
  {
    ok, r := AttachChildNoperm(st, bs, BackingRole(x.drv(bs)), target, perms, aioRefused, x, callers);
    AddsBacking(st, r, ok, Child(Some(bs), BackingSlot(x.drv(bs)), Some(target), perms), update, callers, x.frozen);
    if ok && update {
      r := SetInheritsFrom(r, target, Some(bs));
    }
  }

  /** bdrv_set_file_or_backing_noperm for the backing link, once nothing speaks against changing it. */
  method SetBackingNoperm(st: State, bs: Node, target: Option<Node>, perms: Perms, aioRefused: bool, x: Setting,
                          ghost callers: map<Node, nat>)
    returns (ok: bool, r: State)
    requires ReadyState(st, callers, x.frozen, x.drv) && x.MaySetBacking(st.shape, bs, target) &&
             !x.BackingRefused(st.shape, bs)
    ensures ok <==> target.Some? ==>
              !x.AttachRefused(bs, target.value, perms, aioRefused) &&
              !Reach(Arrows(WithoutBacking(st.shape, bs)), target.value, bs)
    ensures Edited(st, r, ok, Rebacked(st.shape, bs, target, BackingSlot(x.drv(bs)), perms, st.next), callers, x.frozen,
                   x.drv)
  {
    var update := InheritsFromRecursive(st.shape.inherits, target, bs);
    var removed := RemoveBacking(st, bs, x.frozen, callers);
    if target.Some? {
      RemovedNext(st, removed, bs, callers, x.frozen, x.drv);
      ok, r := AddBacking(removed, bs, target.value, perms, aioRefused, update, x, callers);
      RebackedEnds(st, removed, r, ok, bs, target.value, perms, callers, x.frozen, x.drv);
    } else {
      UnbackedEnds(st, removed, bs, perms, callers, x.frozen, x.drv);
      ok, r := true, removed;
    }
  }

  /** What bdrv_unref_child and bdrv_root_unref_child do to the edges and to inherits_from. */
  method UnlinkEdits(st: State, e: EdgeId, x: Setting, ghost callers: map<Node, nat>) returns (r: State)
    requires ReadyState(st, callers, x.frozen, x.drv) && Attached(st.shape, e) && e !in x.frozen
    ensures Edited(st, r, true, Unlinked(st.shape, e), callers, x.frozen, x.drv)
  {
    r := st;
    AdvancesRefl(st, callers, x.frozen);
    var owner := st.shape.edges[e].owner;
    if owner.Some? {
      r := UnsetInheritsFrom(st, owner.value, e, e, x.frozen, callers);
    }
    UnlinkEnds(st, r, e, callers, x.frozen, x.drv);
    r := RemoveChild(r, e, x.frozen);
  }

  // ------------------------------------------------------------ whole transactions

  /** What bdrv_attach_child leaves; it takes over a reference of the caller. */
  ghost predicate AttachOver(st: State, r: State, ok: bool, owner: Node, role: Role, t: Node, perms: Perms,
                             aioRefused: bool, x: Setting, callers: map<Node, nat>)
    requires t in callers && callers[t] > 0
  {
    var goal := WithEdge(st.shape, st.next, Child(Some(owner), SlotOf(x.drv(owner), role), Some(t), perms));
    && (ok <==> !x.AttachRefused(owner, t, perms, aioRefused) && !Reach(Arrows(st.shape), t, owner)
                && Refreshable(goal, x.h, [owner]))
    && Finished(st, r, ok, goal, [owner], x.h, GivenUp(callers, t), x.frozen, x.drv)
  }

  /** What bdrv_root_attach_child leaves. */
  ghost predicate RootAttachOver(st: State, r: State, ok: bool, t: Node, perms: Perms, aioRefused: bool, x: Setting,
                                 callers: map<Node, nat>)
    requires t in callers && callers[t] > 0
  {
    var goal := WithEdge(st.shape, st.next, Child(None, NoLink, Some(t), perms));
    && (ok <==> !x.RootRefused(t, perms, aioRefused) && Refreshable(goal, x.h, [t]))
    && Finished(st, r, ok, goal, [t], x.h, GivenUp(callers, t), x.frozen, x.drv)
  }

  /** bdrv_attach_child */
  method AttachTransaction(st: State, owner: Node, role: Role, t: Node, perms: Perms, aioRefused: bool, x: Setting,
                           ghost callers: map<Node, nat>) returns (ok: bool, r: State)
    requires ReadyState(st, callers, x.frozen, x.drv) && x.MayAttach(st.shape, owner, role, t)
    requires t in callers && callers[t] > 0
    ensures AttachOver(st, r, ok, owner, role, t, perms, aioRefused, x, callers)
  {
    ghost var c := Child(Some(owner), SlotOf(x.drv(owner), role), Some(t), perms);
    OneNode(st.shape, owner);
    RoleMayOwn(x.drv, owner, role, t, perms);
    ok, r := AttachChildNoperm(st, owner, role, t, perms, aioRefused, x, callers);
    AttachEnds(st, r, ok, c, callers, x.frozen, x.drv);
    var told;
    ghost var order;
    ok, r, told, order := Finish(r, ok, [owner], st, WithEdge(st.shape, st.next, c), x, callers);
    GiveUpFinished(st, r, ok, WithEdge(st.shape, st.next, c), [owner], x.h, t, callers, x.frozen, x.drv);
    r := GiveUp(r, t);
  }

  /** bdrv_root_attach_child */
  method RootAttachTransaction(st: State, t: Node, perms: Perms, aioRefused: bool, x: Setting,
                               ghost callers: map<Node, nat>) returns (ok: bool, r: State)
    requires ReadyState(st, callers, x.frozen, x.drv) && t in st.shape.inherits && t in callers && callers[t] > 0
    ensures RootAttachOver(st, r, ok, t, perms, aioRefused, x, callers)
  {
    ghost var c := Child(None, NoLink, Some(t), perms);
    OneNode(st.shape, t);
    ok, r := !x.RootRefused(t, perms, aioRefused), st;
    AdvancesRefl(st, callers, x.frozen);
    if ok {
      ChildAttaches(st, None, NoLink, t, perms, callers, x.frozen);
      r := AttachChild(st, None, NoLink, t, perms);
    }
    AttachEnds(st, r, ok, c, callers, x.frozen, x.drv);
    var told;
    ghost var order;
    ok, r, told, order := Finish(r, ok, [t], st, WithEdge(st.shape, st.next, c), x, callers);
    GiveUpFinished(st, r, ok, WithEdge(st.shape, st.next, c), [t], x.h, t, callers, x.frozen, x.drv);
    r := GiveUp(r, t);
  }

  /** bdrv_unref_child and bdrv_root_unref_child: nothing is ever undone, and a refresh that fails is ignored. */
  method UnlinkTransaction(st: State, e: EdgeId, x: Setting, ghost callers: map<Node, nat>) returns (r: State)
    requires ReadyState(st, callers, x.frozen, x.drv) && Attached(st.shape, e) && e !in x.frozen
    ensures EdgeGone(st, r, e, st.shape.edges[e].target.value, x.h, callers, x.frozen, x.drv)
  {
    var t := st.shape.edges[e].target.value;
    var last := UnlinkEdits(st, e, x, callers);
    var gone := Finalize(last, true, st, x, callers);
    UnlinkIsOver(st, last, gone, e, callers, x.frozen, x.drv);
    OneNode(gone.shape, t);
    AdvancesRefl(gone, callers, x.frozen);
    ghost var ok;
    var told;
    ghost var order;
    ok, r, told, order := Finish(gone, true, [t], gone, gone.shape, x, callers);
    UnlinkedRefreshed(st, last, gone, r, ok, e, t, x.h, callers, x.frozen, x.drv);
  }

  /** Once the edge is removed, the graph is one between transactions. */
  lemma UnlinkIsOver(start: State, last: State, st: State, e: EdgeId, callers: map<Node, nat>, frozen: set<EdgeId>,
                     drv: Node -> Driver)
    requires Attached(start.shape, e) && ReadyState(start, callers, frozen, drv)
    requires Edited(start, last, true, Unlinked(start.shape, e), callers, frozen, drv)
    requires Over(start, last, st, true, callers, frozen)
    ensures ReadyState(st, callers, frozen, drv) && Reached(Unlinked(start.shape, e), st.shape, drv)
    ensures Reached(st.shape, st.shape, drv) && start.shape.edges[e].target.value in st.shape.inherits
  {
    SameEdgesTwice(Unlinked(start.shape, e), last.shape, st.shape);
    SamePermissions(Unlinked(start.shape, e), st.shape);
    SameFilters(Unlinked(start.shape, e), st.shape, drv);
  }

  /** The permissions that the refresh of what is left has found are those for the goal. */
  lemma UnlinkedRefreshed(start: State, last: State, gone: State, st: State, done: bool, e: EdgeId, root: Node,
                          h: Hooks, callers: map<Node, nat>, frozen: set<EdgeId>, drv: Node -> Driver)
    requires Attached(start.shape, e) && Over(start, last, gone, true, callers, frozen)
    requires Reached(Unlinked(start.shape, e), gone.shape, drv) && Total(gone.shape)
    requires done <==> Refreshable(gone.shape, h, [root])
    requires Finished(gone, st, done, gone.shape, [root], h, callers, frozen, drv)
    ensures EdgeGone(start, st, e, root, h, callers, frozen, drv)
  {
    var goal := Unlinked(start.shape, e);
    SameRefresh(goal, gone.shape, h, [root]);
    SamePermissions(goal, gone.shape);
    FrozenKeptTrans(start.shape, gone.shape, st.shape, frozen);
    if done {
      SameEdgesTrans(goal, gone.shape, st.shape);
    }
  }

  /** What bdrv_replace_node_common leaves. */
  ghost predicate ReplaceOver(st: State, r: State, ok: bool, from: Node, parents: seq<EdgeId>, to: Node, autoSkip: bool,
                              detach: Option<EdgeId>, x: Setting, callers: map<Node, nat>) {
    var movable := Movable(st.shape, x.stay, to);
    var goal := Rewire(st.shape, Movers(parents, movable), detach, to);
    && (ok <==> NoneStops(parents, movable, x.frozen, autoSkip) && Refreshable(goal, x.h, [from, to]))
    && Finished(st, r, ok, goal, [from, to], x.h, callers, x.frozen, x.drv)
  }

  /** What bdrv_append leaves. */
  ghost predicate AppendOver(st: State, r: State, ok: bool, bsNew: Node, top: Node, parents: seq<EdgeId>, perms: Perms,
                             aioRefused: bool, x: Setting, callers: map<Node, nat>) {
    var goal := Appended(st, bsNew, top, parents, perms, x.stay, x.drv);
    && (ok <==>
          && !x.AttachRefused(bsNew, top, perms, aioRefused) && !Reach(Arrows(st.shape), top, bsNew)
          && NoneStops(parents, Movable(st.shape, x.stay, bsNew), x.frozen, true)
          && Refreshable(goal, x.h, [bsNew]))
    && Finished(st, r, ok, goal, [bsNew], x.h, callers, x.frozen, x.drv)
  }

  /** What bdrv_set_backing_hd leaves. */
  ghost predicate BackingOver(st: State, r: State, ok: bool, bs: Node, target: Option<Node>, perms: Perms,
                              aioRefused: bool, x: Setting, callers: map<Node, nat>) {
    && (ok <==> BackingWorks(st, bs, target, perms, aioRefused, x))
    && Finished(st, r, ok, Rebacked(st.shape, bs, target, BackingSlot(x.drv(bs)), perms, st.next), [bs], x.h, callers,
                x.frozen, x.drv)
  }

  method ReplaceTransaction(st: State, from: Node, parents: seq<EdgeId>, to: Node, autoSkip: bool,
                            detach: Option<EdgeId>, x: Setting,
                            ghost callers: map<Node, nat>) returns (ok: bool, r: State)
    requires ReadyState(st, callers, x.frozen, x.drv) && from in st.shape.inherits && to in st.shape.inherits &&
             from != to
    requires ParentsOf(st.shape, from, parents)
    requires detach.Some? ==> detach.value in Pointing(st.shape, to) && detach.value !in x.frozen
    ensures ReplaceOver(st, r, ok, from, parents, to, autoSkip, detach, x, callers)
  {
    TwoNodes(st.shape, from, to);
    ok, r := ReplaceEdits(st, from, parents, to, autoSkip, detach, x, callers);
    var told;
    ghost var order;
    ghost var goal := Rewire(st.shape, Movers(parents, Movable(st.shape, x.stay, to)), detach, to);
    ok, r, told, order := Finish(r, ok, [from, to], st, goal, x, callers);
  }

  method AppendTransaction(st: State, bsNew: Node, top: Node, parents: seq<EdgeId>, perms: Perms, aioRefused: bool,
                           x: Setting, ghost callers: map<Node, nat>) returns (ok: bool, r: State)
    requires ReadyState(st, callers, x.frozen, x.drv) && x.MayAppend(st.shape, bsNew, top) &&
             ParentsOf(st.shape, top, parents)
    ensures AppendOver(st, r, ok, bsNew, top, parents, perms, aioRefused, x, callers)
  {
    OneNode(st.shape, bsNew);
    ok, r := AppendEdits(st, bsNew, top, parents, perms, aioRefused, x, callers);
    var told;
    ghost var order;
    ghost var goal := Appended(st, bsNew, top, parents, perms, x.stay, x.drv);
    ok, r, told, order := Finish(r, ok, [bsNew], st, goal, x, callers);
  }

  /** When bdrv_set_backing_hd succeeds. */
  ghost predicate BackingWorks(st: State, bs: Node, target: Option<Node>, perms: Perms, aioRefused: bool, x: Setting) {
    && !x.BackingRefused(st.shape, bs)
    && (target.Some? ==> !x.AttachRefused(bs, target.value, perms, aioRefused)
                         && !Reach(Arrows(WithoutBacking(st.shape, bs)), target.value, bs))
    && Refreshable(Rebacked(st.shape, bs, target, BackingSlot(x.drv(bs)), perms, st.next), x.h, [bs])
  }

  method BackingTransaction(st: State, bs: Node, target: Option<Node>, perms: Perms, aioRefused: bool, x: Setting,
                            ghost callers: map<Node, nat>) returns (ok: bool, r: State)
    requires ReadyState(st, callers, x.frozen, x.drv) && x.MaySetBacking(st.shape, bs, target)
    ensures BackingOver(st, r, ok, bs, target, perms, aioRefused, x, callers)
  {
    OneNode(st.shape, bs);
    if x.BackingRefused(st.shape, bs) {
      AdvancesRefl(st, callers, x.frozen);
      ok, r := false, st;
    } else {
      ok, r := SetBackingNoperm(st, bs, target, perms, aioRefused, x, callers);
    }
    var told;
    ghost var order;
    ghost var goal := Rebacked(st.shape, bs, target, BackingSlot(x.drv(bs)), perms, st.next);
    ok, r, told, order := Finish(r, ok, [bs], st, goal, x, callers);
  }

  /** What the operations ask of their callers. */
  predicate Allowed(st: State, op: Operation, x: Setting) {
    match op
    case Replacing(from, to, _) => from in st.shape.inherits && to in st.shape.inherits && from != to
    case Dropping(bs) => MayDrop(st.shape, bs, x)
    case Appending(bsNew, top, _, _) => x.MayAppend(st.shape, bsNew, top)
    case SettingBacking(bs, target, _, _) => x.MaySetBacking(st.shape, bs, target)
    case Attaching(owner, role, t, _, _) => x.MayAttach(st.shape, owner, role, t)
    case RootAttaching(t, _, _) => t in st.shape.inherits
    case Unlinking(e) => Attached(st.shape, e) && e !in x.frozen
    case RunningUnref(n) => n in st.shape.inherits && n in st.scheduled
  }

  predicate MayDrop(s: Shape, bs: Node, x: Setting) {
    bs in s.inherits && ChainLink(s, x.drv, bs).Some? && ChainLink(s, x.drv, bs).value !in x.frozen
  }

  /** The references of the callers once the reference that attaching takes over, a new one, has been given up. */
  ghost function Passed(callers: map<Node, nat>, t: Node): map<Node, nat> {
    GivenUp(Taken(callers, t), t)
  }

  ghost predicate DropEffect(st: State, r: State, ok: bool, bs: Node, x: Setting, callers: map<Node, nat>)
    requires MayDrop(st.shape, bs, x)
  {
    var link := ChainLink(st.shape, x.drv, bs).value;
    && Attached(st.shape, link)
    && ReplaceOver(st, r, ok, bs, ListOf(Pointing(st.shape, bs)), st.shape.edges[link].target.value, true, Some(link),
                   x, callers)
  }

  /** The operation, which succeeds or not, makes r of st. */
  ghost predicate Effect(st: State, op: Operation, x: Setting, ok: bool, r: State, callers: map<Node, nat>)
    requires Allowed(st, op, x)
  {
    match op
    case Replacing(from, to, autoSkip) =>
      ReplaceOver(st, r, ok, from, ListOf(Pointing(st.shape, from)), to, autoSkip, None, x, callers)
    case Dropping(bs) => DropEffect(st, r, ok, bs, x, callers)
    case Appending(bsNew, top, perms, aioRefused) =>
      AppendOver(st, r, ok, bsNew, top, ListOf(Pointing(st.shape, top)), perms, aioRefused, x, callers)
    case SettingBacking(bs, target, perms, aioRefused) =>
      BackingOver(st, r, ok, bs, target, perms, aioRefused, x, callers)
    case Attaching(owner, role, t, perms, aioRefused) =>
      AttachOver(TakeRef(st, t), r, ok, owner, role, t, perms, aioRefused, x, Taken(callers, t))
    case RootAttaching(t, perms, aioRefused) =>
      RootAttachOver(TakeRef(st, t), r, ok, t, perms, aioRefused, x, Taken(callers, t))
    case Unlinking(e) => EdgeGone(st, r, e, st.shape.edges[e].target.value, x.h, callers, x.frozen, x.drv)
    case RunningUnref(n) => r == RunUnref(st, n)
  }

  /** An operation keeps the graph in order and every frozen edge in place. */
  method PerformOn(st: State, op: Operation, x: Setting, ghost callers: map<Node, nat>)
    returns (ok: bool, r: State, ghost after: map<Node, nat>)
    requires ReadyState(st, callers, x.frozen, x.drv) && Allowed(st, op, x)
    ensures Effect(st, op, x, ok, r, callers)
    ensures ReadyState(r, after, x.frozen, x.drv) && FrozenKept(st.shape, r.shape, x.frozen)
  {
    ok, after := true, callers;
    match op {
      case Replacing(from, to, autoSkip) =>
        ListIsParents(st.shape, from);
        ok, r := ReplaceTransaction(st, from, ListOf(Pointing(st.shape, from)), to, autoSkip, None, x, callers);
      case Dropping(bs) => ok, r := PerformDrop(st, bs, x, callers);
      case Appending(bsNew, top, perms, aioRefused) =>
        ListIsParents(st.shape, top);
        ok, r := AppendTransaction(st, bsNew, top, ListOf(Pointing(st.shape, top)), perms, aioRefused, x, callers);
      case SettingBacking(bs, target, perms, aioRefused) =>
        ok, r := BackingTransaction(st, bs, target, perms, aioRefused, x, callers);
      case Attaching(owner, role, t, perms, aioRefused) =>
        RefReady(st, t, callers, x.frozen, x.drv);
        after := Passed(callers, t);
        ok, r := AttachTransaction(TakeRef(st, t), owner, role, t, perms, aioRefused, x, Taken(callers, t));
      case RootAttaching(t, perms, aioRefused) =>
        RefReady(st, t, callers, x.frozen, x.drv);
        after := Passed(callers, t);
        ok, r := RootAttachTransaction(TakeRef(st, t), t, perms, aioRefused, x, Taken(callers, t));
      case Unlinking(e) => r := UnlinkTransaction(st, e, x, callers);
      case RunningUnref(n) =>
        UnrefReady(st, n, callers, x.frozen, x.drv);
        r := RunUnref(st, n);
    }
  }

  method PerformDrop(st: State, bs: Node, x: Setting, ghost callers: map<Node, nat>) returns (ok: bool, r: State)
    requires ReadyState(st, callers, x.frozen, x.drv) && MayDrop(st.shape, bs, x)
    ensures DropEffect(st, r, ok, bs, x, callers)
  {
    var link := ChainLink(st.shape, x.drv, bs).value;
    LinkLeadsAway(st.shape, x.drv, bs);
    ListIsParents(st.shape, bs);
    ok, r := ReplaceTransaction(st, bs, ListOf(Pointing(st.shape, bs)), st.shape.edges[link].target.value, true,
                                Some(link), x, callers);
  }

  ghost predicate HasEffect(st: State, op: Operation, x: Setting, r: State, callers: map<Node, nat>, ok: bool) {
    Allowed(st, op, x) && Effect(st, op, x, ok, r, callers)
  }

  /** One operation of a run, which does nothing when it is not allowed. */
  ghost predicate Next(st: State, op: Operation, x: Setting, r: State) {
    if Allowed(st, op, x) then exists callers: map<Node, nat>, ok: bool :: HasEffect(st, op, x, r, callers, ok)
    else r == st
  }

  /** The states are those the operations lead through. */
  ghost predicate IsRun(ops: seq<Operation>, states: seq<State>, x: Setting) {
    && 0 < |states| <= |ops| + 1
    && forall k :: 0 <= k < |states| - 1 ==> Next(states[k], ops[k], x, states[k + 1])
  }

  /** A run of all the operations that leads from st to r. */
  ghost predicate FullRun(ops: seq<Operation>, states: seq<State>, x: Setting, st: State, r: State) {
    IsRun(ops, states, x) && |states| == |ops| + 1 && states[0] == st && states[|ops|] == r
  }

  lemma OneMoreState(ops: seq<Operation>, states: seq<State>, r: State, x: Setting)
    requires IsRun(ops, states, x) && |states| <= |ops| && Next(states[|states| - 1], ops[|states| - 1], x, r)
    ensures IsRun(ops, states + [r], x)
  {
    var more := states + [r];
    forall k | 0 <= k < |more| - 1 ensures Next(more[k], ops[k], x, more[k + 1]) {
      if k == |states| - 1 {
        assert more[k] == states[k] && more[k + 1] == r;
      }
    }
  }

  /** A node with a new backing file has a link to it. */
  lemma BackedLink(s: Shape, r: Shape, bs: Node, target: Node, perms: Perms, e: EdgeId, drv: Node -> Driver)
    requires LinksOk(r) && SameAttached(Rebacked(s, bs, Some(target), BackingSlot(drv(bs)), perms, e), r)
    ensures ChainLink(r, drv, bs).Some?
  {
    assert Attached(Rebacked(s, bs, Some(target), BackingSlot(drv(bs)), perms, e), e);
    assert Attached(r, e) && Registered(r.edges[e]) && r.edges[e].owner == Some(bs);
  }

  /** The node has a link that is not frozen. */
  predicate NewLink(s: Shape, n: Node, frozen: set<EdgeId>, drv: Node -> Driver) {
    ChainLink(s, drv, n).Some? && ChainLink(s, drv, n).value !in frozen
  }

  lemma LinkGrows(start: State, st: State, last: Node, target: Node, perms: Perms, h: Hooks, callers: map<Node, nat>,
                  frozen: set<EdgeId>, drv: Node -> Driver)
    requires ReadyState(start, callers, frozen, drv) && ChainLink(start.shape, drv, last).None?
    requires Finished(start, st, true,
                      Rebacked(start.shape, last, Some(target), BackingSlot(drv(last)), perms, start.next),
                      [last], h, callers, frozen, drv)
    ensures NewLink(st.shape, last, frozen, drv)
  {
    BackedLink(start.shape, st.shape, last, target, perms, start.next, drv);
    NewLinkIsThawed(start.shape, st.shape, drv, frozen, last);
  }

  class BlockGraph {
    var st: State
    var x: Setting
    /** The nodes with never_freeze. */
    const neverFreeze: set<Node>
    /** References owned by code outside the graph. */
    ghost var callers: map<Node, nat>

    ghost predicate Ready()
      reads this`st, this`x, this`callers
    {
      ReadyState(st, callers, x.frozen, x.drv)
    }

    /** bdrv_replace_node_common.  With detach, the link from the COW parent of `to` goes away. */
    method ReplaceNodeCommon(from: Node, parents: seq<EdgeId>, to: Node, autoSkip: bool, detach: Option<EdgeId>)
      returns (ok: bool)
      requires Ready() && from in st.shape.inherits && to in st.shape.inherits && from != to &&
               ParentsOf(st.shape, from, parents)
      requires detach.Some? ==> detach.value in Pointing(st.shape, to) && detach.value !in x.frozen
      modifies this`st
      ensures ReplaceOver(old(st), st, ok, from, parents, to, autoSkip, detach, old(x), old(callers))
    {
      ok, st := ReplaceTransaction(st, from, parents, to, autoSkip, detach, x, callers);
    }

    /** bdrv_drop_filter: the parents of bs go to its child, and the link to it goes away. */
    method DropFilter(bs: Node, parents: seq<EdgeId>) returns (ok: bool)
      requires Ready() && MayDrop(st.shape, bs, x) && ParentsOf(st.shape, bs, parents)
      modifies this`st
      ensures Attached(old(st).shape, ChainLink(old(st).shape, old(x).drv, bs).value)
      ensures var link := ChainLink(old(st).shape, old(x).drv, bs).value;
              ReplaceOver(old(st), st, ok, bs, parents, old(st).shape.edges[link].target.value, true, Some(link),
                          old(x), old(callers))
    {
      var link := ChainLink(st.shape, x.drv, bs).value;
      LinkLeadsAway(st.shape, x.drv, bs);
      ok := ReplaceNodeCommon(bs, parents, st.shape.edges[link].target.value, true, Some(link));
    }

    /** bdrv_append; parents is top->parents. */
    method Append(bsNew: Node, top: Node, parents: seq<EdgeId>, perms: Perms, aioRefused: bool) returns (ok: bool)
      requires Ready() && x.MayAppend(st.shape, bsNew, top) && ParentsOf(st.shape, top, parents)
      modifies this`st
      ensures AppendOver(old(st), st, ok, bsNew, top, parents, perms, aioRefused, old(x), old(callers))
    {
      ok, st := AppendTransaction(st, bsNew, top, parents, perms, aioRefused, x, callers);
    }

    /** bdrv_set_backing_hd */
    method SetBackingHd(bs: Node, target: Option<Node>, perms: Perms, aioRefused: bool) returns (ok: bool)
      requires Ready() && x.MaySetBacking(st.shape, bs, target)
      modifies this`st
      ensures BackingOver(old(st), st, ok, bs, target, perms, aioRefused, old(x), old(callers))
    {
      ok, st := BackingTransaction(st, bs, target, perms, aioRefused, x, callers);
    }

    /** bdrv_ref by a caller. */
    method Ref(n: Node)
      requires Ready() && n in st.shape.inherits
      modifies this`st, this`callers
      ensures st == TakeRef(old(st), n) && callers == Taken(old(callers), n)
      ensures ReadyState(TakeRef(old(st), n), Taken(old(callers), n), old(x).frozen, old(x).drv)
    {
      RefReady(st, n, callers, x.frozen, x.drv);
      st, callers := TakeRef(st, n), Taken(callers, n);
    }

    /** bdrv_schedule_unref_bh */
    method RunUnref(n: Node)
      requires Ready() && n in st.shape.inherits && n in st.scheduled
      modifies this`st
      ensures st == GraphEdits.RunUnref(old(st), n) && n in old(st).refcnt && old(st).refcnt[n] > 0
      ensures ReadyState(GraphEdits.RunUnref(old(st), n), old(callers), old(x).frozen, old(x).drv)
    {
      UnrefReady(st, n, callers, x.frozen, x.drv);
      st := GraphEdits.RunUnref(st, n);
    }

    /** bdrv_attach_child, which takes over a reference of the caller and gives it up again. */
    method AttachChild(owner: Node, role: Role, t: Node, perms: Perms, aioRefused: bool) returns (ok: bool)
      requires Ready() && x.MayAttach(st.shape, owner, role, t) && t in callers && callers[t] > 0
      modifies this`st, this`callers
      ensures callers == GivenUp(old(callers), t)
      ensures AttachOver(old(st), st, ok, owner, role, t, perms, aioRefused, old(x), old(callers))
    {
      var r;
      ok, r := AttachTransaction(st, owner, role, t, perms, aioRefused, x, callers);
      st, callers := r, GivenUp(callers, t);
    }

    /** bdrv_root_attach_child */
    method RootAttachChild(t: Node, perms: Perms, aioRefused: bool) returns (ok: bool)
      requires Ready() && t in st.shape.inherits && t in callers && callers[t] > 0
      modifies this`st, this`callers
      ensures callers == GivenUp(old(callers), t)
      ensures RootAttachOver(old(st), st, ok, t, perms, aioRefused, old(x), old(callers))
    {
      var r;
      ok, r := RootAttachTransaction(st, t, perms, aioRefused, x, callers);
      st, callers := r, GivenUp(callers, t);
    }

    /** bdrv_unref_child, or bdrv_root_unref_child for an edge without an owner. */
    method UnrefChild(e: EdgeId)
      requires Ready() && Attached(st.shape, e) && e !in x.frozen
      modifies this`st
      ensures EdgeGone(old(st), st, e, old(st).shape.edges[e].target.value, old(x).h, old(callers), old(x).frozen,
                       old(x).drv)
    {
      st := UnlinkTransaction(st, e, x, callers);
    }

    // ---------------------------------------------------------- frozen chains

    /** The loop all chain functions make: from bs over bdrv_filter_or_cow_child down to base. */
    method WalkChain(bs: Node, base: Option<Node>, ghost links: seq<EdgeId>) returns (list: seq<EdgeId>)
      requires IsChain(st.shape, x.drv, bs, base, links)
      ensures list == links
    {
      list := [];
      var i := Some(bs);
      while i != base
        invariant list <= links && (i == base ==> list == links) && (i.None? ==> base.None?)
        invariant i.Some? ==> IsChain(st.shape, x.drv, i.value, base, links[|list|..])
        decreases |links| - |list|, i.Some?
      {
        var child := ChainLink(st.shape, x.drv, i.value);
        if child.Some? {
          list := list + [child.value];
          i := st.shape.edges[child.value].target;
        } else {
          i := None;
        }
      }
    }

    /** bdrv_freeze_backing_chain: all links are frozen, or none is touched. */
    method FreezeChain(bs: Node, base: Option<Node>, ghost links: seq<EdgeId>) returns (ok: bool)
      requires IsChain(st.shape, x.drv, bs, base, links)
      modifies this`x
      ensures ok <==> forall e :: e in links ==> e !in old(x).frozen && !LeadsTo(st.shape, e, neverFreeze)
      ensures x == if ok then old(x).(frozen := old(x).frozen + Elements(links)) else old(x)
    {
      var list := WalkChain(bs, base, links);
      if (exists e :: e in list && e in x.frozen) || (exists e :: e in list && LeadsTo(st.shape, e, neverFreeze)) {
        return false;
      }
      for k := 0 to |list|
        invariant x == old(x).(frozen := old(x).frozen + Elements(list[..k]))
      {
        x := x.(frozen := x.frozen + {list[k]});
      }
      assert list[..|list|] == list;
      return true;
    }

    /** bdrv_unfreeze_backing_chain; what it asserts of every link holds. */
    method UnfreezeChain(bs: Node, base: Option<Node>, ghost links: seq<EdgeId>)
      requires IsChain(st.shape, x.drv, bs, base, links) && forall e :: e in links ==> e in x.frozen
      modifies this`x
      ensures x == old(x).(frozen := old(x).frozen - Elements(links))
    {
      ChainIsDistinct(st.shape, x.drv, bs, base, links);
      var list := WalkChain(bs, base, links);
      for k := 0 to |list|
        invariant x == old(x).(frozen := old(x).frozen - Elements(list[..k]))
      {
        assert list[k] in x.frozen;
        x := x.(frozen := x.frozen - {list[k]});
      }
      assert list[..|list|] == list;
    }

    /** Any operations one after another, as far as they are allowed; states has the graph before and after each. */
    method Run(ops: seq<Operation>) returns (ghost states: seq<State>)
      requires Ready()
      modifies this`st, this`callers
      ensures Ready() && FrozenKept(old(st).shape, st.shape, x.frozen)
      ensures FullRun(ops, states, old(x), old(st), st)
    {
      states := [st];
      for i := 0 to |ops|
        invariant Ready() && FrozenKept(old(st).shape, st.shape, x.frozen)
        invariant IsRun(ops, states, x) && |states| == i + 1 && states[0] == old(st) && states[i] == st
      {
        ghost var before, was := st, callers;
        if Allowed(st, ops[i], x) {
          var ok;
          ok, st, callers := PerformOn(st, ops[i], x, callers);
          FrozenKeptTrans(old(st).shape, before.shape, st.shape, x.frozen);
          assert HasEffect(before, ops[i], x, st, was, ok);
        }
        OneMoreState(ops, states, st, x);
        states := states + [st];
      }
    }

    /**
     A chain is frozen, the graph is changed in any way, and the chain is unfrozen.  Meanwhile a chain
     down to a base stays the chain from bs to base, so that all it froze is unfrozen, and nothing else.
     A chain without a base stays complete exactly if its last node still has no link; otherwise the walk
     comes to a link that is not frozen, which unfreezing asserts it to be.
     */
    method WithChainFrozen(bs: Node, base: Option<Node>, ghost links: seq<EdgeId>, ops: seq<Operation>)
      returns (ok: bool, complete: bool, ghost states: seq<State>)
      requires Ready() && IsChain(st.shape, x.drv, bs, base, links)
      modifies this`st, this`x, this`callers
      ensures Ready() && FrozenKept(old(st).shape, st.shape, old(x).frozen + Elements(links))
      ensures ok <==> forall e :: e in links ==> e !in old(x).frozen && !LeadsTo(old(st).shape, e, neverFreeze)
      ensures !ok ==> st == old(st) && complete
      ensures ok ==> FullRun(ops, states, old(x).(frozen := old(x).frozen + Elements(links)), old(st), st)
      ensures complete <==> base.Some? || ChainLink(st.shape, old(x).drv, LastNode(old(st).shape, bs, links)).None?
      ensures complete <==> IsChain(st.shape, old(x).drv, bs, base, links)
      ensures complete ==> x == old(x)
      ensures !complete ==>
                && x == old(x).(frozen := old(x).frozen + Elements(links))
                && NewLink(st.shape, LastNode(old(st).shape, bs, links), x.frozen, x.drv)
    {
      var list := WalkChain(bs, base, links);
      var last := LastNode(st.shape, bs, list);
      if base.None? {
        ChainEnds(st.shape, x.drv, bs, links);
      }
      complete, states := true, [st];
      ok := FreezeChain(bs, base, links);
      if ok {
        FrozenMore(st, links, x.drv, bs, base, old(x).frozen, x.frozen);
        states := Run(ops);
        FrozenChainIsChain(old(st).shape, st.shape, x.drv, x.frozen, bs, base, links);
        complete := base.Some? || ChainLink(st.shape, x.drv, last).None?;
        if complete {
          UnfreezeChain(bs, base, links);
          assert x.frozen == old(x).frozen;
        } else {
          NewLinkIsThawed(old(st).shape, st.shape, x.drv, x.frozen, last);
        }
      }
    }
  }

  // ------------------------------------------------------------ a chain that grows at its end

  /** Drivers that compute no permissions, and accept all. */
  const EASY_HOOKS := Hooks(_ => true, _ => true, _ => true, _ => false, (_, _) => true, (_, _, p) => p)

  lemma EasyNode(g: Graph, q: Assignment, n: Node)
    requires g.Valid() && Covers(q, g) && n in g.children && forall e :: e in q ==> q[e].perm == {}
    ensures Consistent(g, EASY_HOOKS, q, n)
  {
  }

  lemma EasyRefresh(s: Shape, roots: seq<Node>)
    requires Total(s) && forall e :: e in s.edges ==> s.edges[e].perms.perm == {}
    ensures Refreshable(s, EASY_HOOKS, roots)
  {
    var g, q := GraphOf(s), PermsOf(s);
    GraphOfValid(s);
    forall n | n in BelowAll(Arrows(s), roots) ensures n in g.children && Consistent(g, EASY_HOOKS, q, n) {
      EasyNode(g, q, n);
    }
    assert Refreshes(s, EASY_HOOKS, roots, q);
  }

  /** Two nodes, none of which is a child of the other. */
  const TWO_NODES := State(Shape(map[], map[0 := None, 1 := None], map[]), [], map[0 := 1, 1 := 1], multiset{}, 0)

  const EASY_SETTING := Setting({}, {}, {}, _ => Driver(false, true, true), EASY_HOOKS)

  lemma NoPath(d: Digraph, u: Node, v: Node)
    requires u != v && forall x: Node, y: Node :: !Arrow(d, x, y)
    ensures !Reach(d, u, v)
  {
    if Reach(d, u, v) {
      var w := ReachFirst(d, u, v);
    }
  }

  lemma TwoNodesGood()
    ensures Good(TWO_NODES, map[0 := 1, 1 := 1])
  {
    forall n ensures Pointing(TWO_NODES.shape, n) == {} {
    }
  }

  lemma TwoNodesApart()
    ensures var s := TWO_NODES.shape;
            && Acyclic(Arrows(s)) && Acyclic(Upward(s.inherits)) && Closed(Upward(s.inherits))
            && !Reach(Arrows(WithoutBacking(s, 0)), 1, 0)
  {
    var s := TWO_NODES.shape;
    forall x: Node, y: Node ensures !Arrow(Arrows(s), x, y) && !Arrow(Upward(s.inherits), x, y) {
    }
    NoPath(Arrows(s), 1, 0);
  }

  lemma TwoNodesReady()
    ensures ReadyState(TWO_NODES, map[0 := 1, 1 := 1], EASY_SETTING.frozen, EASY_SETTING.drv)
  {
    TwoNodesGood();
    TwoNodesApart();
  }

  lemma GrownGoal(goal: Shape, perms: Perms)
    requires perms.perm == {} && goal == Rebacked(TWO_NODES.shape, 0, Some(1), BackingLink, perms, 0)
    ensures Refreshable(goal, EASY_HOOKS, [0])
    ensures Attached(goal, 0) && goal.edges[0] == Child(Some(0), BackingLink, Some(1), perms)
  {
    assert goal.edges == map[0 := Child(Some(0), BackingLink, Some(1), perms)];
    EasyRefresh(goal, [0]);
  }

  /** One of the nodes can become the backing file of the other. */
  lemma GrownMay(st: State, x: Setting, perms: Perms)
    requires perms.perm == {} && x == EASY_SETTING && st == TWO_NODES
    ensures x.MaySetBacking(st.shape, 0, Some(1)) && BackingWorks(st, 0, Some(1), perms, false, x)
  {
    TwoNodesApart();
    assert !x.BackingRefused(st.shape, 0) && BackingSlot(x.drv(0)) == BackingLink;
    GrownGoal(Rebacked(TWO_NODES.shape, 0, Some(1), BackingLink, perms, 0), perms);
  }

  /** A chain that goes down from node 0 to its end, and what can be appended there. */
  method ShortChain() returns (st: State, x: Setting, perms: Perms, ghost callers: map<Node, nat>)
    ensures ReadyState(st, callers, x.frozen, x.drv) && IsChain(st.shape, x.drv, 0, None, [])
    ensures ChainLink(st.shape, x.drv, 0).None? && x.MaySetBacking(st.shape, 0, Some(1))
    ensures BackingWorks(st, 0, Some(1), perms, false, x)
  {
    TwoNodesReady();
    st, x, perms, callers := TWO_NODES, EASY_SETTING, Perms({}, ALL), map[0 := 1, 1 := 1];
    GrownMay(st, x, perms);
  }

  /**
   The input for which a frozen chain does not stay complete: it goes down to a node without a link, so
   that there is nothing to freeze, and the node is given a link.  The new link is not frozen, as
   unfreezing asserts it to be.
   */
  method GrownChain() returns (st: State, r: State, x: Setting, perms: Perms)
    ensures IsChain(st.shape, x.drv, 0, None, []) && BackingWorks(st, 0, Some(1), perms, false, x)
    ensures SameAttached(Rebacked(st.shape, 0, Some(1), BackingSlot(x.drv(0)), perms, st.next), r.shape)
    ensures NewLink(r.shape, 0, x.frozen, x.drv)
  {
    var backed;
    ghost var callers;
    st, x, perms, callers := ShortChain();
    backed, r := BackingTransaction(st, 0, Some(1), perms, false, x, callers);
    LinkGrows(st, r, 0, 1, perms, x.h, callers, x.frozen, x.drv);
  }
}
