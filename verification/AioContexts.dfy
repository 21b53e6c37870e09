/**
 Moving block nodes to another AioContext.  A node can only move together with everything it
 is connected to: its parents and children, the jobs that use them and all their nodes, and
 the block backends on top.  bdrv_change_aio_context walks all of that, marking the edges it
 has passed, and collects what has to move; nothing moves before the walk has succeeded.
 */
module AioContexts {
  import opened Options
  import opened Digraph
  import opened Sequences

  type Context = nat

  /** What the ends of edges are: nodes, and the users of nodes. */
  datatype Kind =
    | BlockNode(parents: seq<EdgeId>, children: seq<EdgeId>)
    | Job(nodes: seq<EdgeId>)
    | Backend(root: EdgeId, mayChange: bool)
    | Fixed                                      // its class has no change_aio_ctx

  datatype Use = Use(user: Node, target: Node)

  predicate Refuses(k: Kind) {
    k.Fixed? || (k.Backend? && !k.mayChange)
  }

  datatype Network = Network(kinds: map<Node, Kind>, uses: map<EdgeId, Use>) {
    /** Edges lead from users to nodes, and everybody's lists have exactly their edges. */
    ghost predicate Valid() {
      && (forall e :: e in uses ==>
            uses[e].user in kinds && uses[e].target in kinds && kinds[uses[e].target].BlockNode?)
      && (forall e :: e in uses ==> e in kinds[uses[e].target].parents && Uses(kinds[uses[e].user], e))
      && (forall t, e :: t in kinds && kinds[t].BlockNode? && e in kinds[t].parents ==>
            e in uses && uses[e].target == t)
      && (forall t, e :: t in kinds && !kinds[t].Fixed? && Uses(kinds[t], e) ==> e in uses && uses[e].user == t)
    }
  }

  /** The edge is in the user's list; those of a user that refuses anyway do not matter. */
  predicate Uses(k: Kind, e: EdgeId) {
    match k
    case BlockNode(_, children) => e in children
    case Job(nodes) => e in nodes
    case Backend(root, _) => e == root
    case Fixed => true
  }

  /** The edges at a thing. */
  predicate At(k: Kind, e: EdgeId) {
    Uses(k, e) || (k.BlockNode? && e in k.parents)
  }

  /** Who is connected with whom by an edge, either way, when the edges in skip do not count. */
  ghost function Links(g: Network, skip: set<EdgeId>): Digraph {
    map t | t in g.kinds :: set u | u in g.kinds && Linked(g, skip, t, u)
  }

  predicate Joins(g: Network, e: EdgeId, t: Node, u: Node) {
    e in g.uses && (g.uses[e] == Use(t, u) || g.uses[e] == Use(u, t))
  }

  ghost predicate Linked(g: Network, skip: set<EdgeId>, t: Node, u: Node) {
    exists e :: e !in skip && Joins(g, e, t, u)
  }

  lemma LinkArrow(g: Network, skip: set<EdgeId>, e: EdgeId, t: Node, u: Node)
    requires g.Valid() && Joins(g, e, t, u) && e !in skip
    ensures Arrow(Links(g, skip), t, u)
  {
  }

  /** Something connected with root refuses to move. */
  ghost predicate Refused(g: Network, skip: set<EdgeId>, root: Node) {
    exists t :: t in g.kinds && Refuses(g.kinds[t]) && Reach(Links(g, skip), root, t)
  }

  predicate Movable(g: Network, e: EdgeId)
    requires e in g.uses
  {
    g.uses[e].user in g.kinds && g.uses[e].target in g.kinds && !g.kinds[g.uses[e].user].Fixed?
  }

  /** Connected things that can move at all are in one context. */
  ghost predicate Uniform(g: Network, skip: set<EdgeId>, ctx: map<Node, Context>) {
    && ctx.Keys == g.kinds.Keys
    && forall e :: e in g.uses && e !in skip && Movable(g, e) ==> ctx[g.uses[e].user] == ctx[g.uses[e].target]
  }

  // ------------------------------------------------------------ the walk

  datatype Walk = Walk(g: Network, skip: set<EdgeId>, ctx: map<Node, Context>, next: Context, root: Node)
  {
    ghost predicate Valid() {
      g.Valid() && ctx.Keys == g.kinds.Keys
    }

    /** What the root is connected with. */
    ghost predicate Near(t: Node) {
      Reach(Links(g, skip), root, t)
    }

    ghost predicate IsRefused() {
      Refused(g, skip, root)
    }

    /** A thing that has been collected, is being visited, or is a node that is where it should be. */
    ghost predicate Met(moved: set<Node>, open: set<Node>, t: Node) {
      t in moved || t in open || (t in g.kinds && g.kinds[t].BlockNode? && t in ctx && ctx[t] == next)
    }

    /** Both ends of the edges passed have been met, and all edges at the collected things were passed. */
    ghost predicate Ok(visited: set<EdgeId>, moved: set<Node>, open: set<Node>) {
      && (forall e :: e in visited && e !in skip ==>
            e in g.uses && Met(moved, open, g.uses[e].user) && Met(moved, open, g.uses[e].target))
      && (forall t :: t in moved ==> t in g.kinds && !Refuses(g.kinds[t]) && Near(t))
      && (forall t, e :: t in moved && t in g.kinds && At(g.kinds[t], e) ==> e in visited)
      && skip <= visited
    }
  }

  lemma PassEdge(w: Walk, visited: set<EdgeId>, moved: set<Node>, open: set<Node>, open': set<Node>, e: EdgeId)
    requires w.Ok(visited, moved, open) && open <= open' && e in w.g.uses
    requires w.Met(moved, open', w.g.uses[e].user) && w.Met(moved, open', w.g.uses[e].target)
    ensures w.Ok(visited + {e}, moved, open')
  {
  }

  lemma Collect(w: Walk, visited: set<EdgeId>, log: seq<Node>, open: set<Node>, t: Node)
    requires w.Ok(visited, Elements(log), open + {t}) && t in w.g.kinds && !Refuses(w.g.kinds[t]) && w.Near(t)
    requires forall e :: At(w.g.kinds[t], e) ==> e in visited
    ensures w.Ok(visited, Elements(log + [t]), open)
  {
    Logged(log, t);
  }

  lemma AlreadyThere(w: Walk, visited: set<EdgeId>, moved: set<Node>, open: set<Node>, t: Node)
    requires w.Ok(visited, moved, open + {t}) && t in w.g.kinds && w.g.kinds[t].BlockNode? && t in w.ctx &&
             w.ctx[t] == w.next
    ensures w.Ok(visited, moved, open)
  {
  }

  lemma Logged(log: seq<Node>, t: Node)
    ensures Elements(log + [t]) == Elements(log) + {t}
  {
  }

  lemma RefusedAt(w: Walk, t: Node)
    requires t in w.g.kinds && Refuses(w.g.kinds[t]) && w.Near(t)
    ensures w.IsRefused()
  {
  }

  /** Passing an edge leads to something connected. */
  lemma NearOver(w: Walk, e: EdgeId, t: Node, u: Node)
    requires w.Valid() && Joins(w.g, e, t, u) && e !in w.skip && w.Near(t)
    ensures w.Near(u) && u in w.g.kinds
  {
    LinkArrow(w.g, w.skip, e, t, u);
    ReachArrow(Links(w.g, w.skip), t, u);
    ReachTrans(Links(w.g, w.skip), w.root, t, u);
  }

  lemma NextIsCollected(w: Walk, visited: set<EdgeId>, moved: set<Node>, t: Node, u: Node)
    requires w.Valid() && w.Ok(visited, moved, {}) && Uniform(w.g, w.skip, w.ctx)
    requires t in moved && w.ctx[t] != w.next && Arrow(Links(w.g, w.skip), t, u)
    ensures u in moved && w.ctx[u] == w.ctx[t]
  {
  }

  /** A walk that ends well has collected exactly what is connected with the root, and nothing there refuses. */
  lemma WalkIsComplete(w: Walk, visited: set<EdgeId>, moved: set<Node>)
    requires w.Valid() && w.Ok(visited, moved, {}) && Uniform(w.g, w.skip, w.ctx)
    requires w.root in moved && w.ctx[w.root] != w.next
    ensures !w.IsRefused()
    ensures forall t :: t in w.g.kinds ==> (t in moved <==> w.Near(t))
  {
    var d := Links(w.g, w.skip);
    var within := set t | t in moved && t in w.ctx && w.ctx[t] == w.ctx[w.root];
    forall x, y | x in within && Arrow(d, x, y) ensures y in within {
      NextIsCollected(w, visited, moved, x, y);
    }
    forall t | t in w.g.kinds && w.Near(t) ensures t in moved {
      ReachStaysIn(d, w.root, t, within);
    }
  }

  /** Where a visit of bs, or of its user, stands. */
  ghost predicate Visiting(w: Walk, visited: set<EdgeId>, log: seq<Node>, open: set<Node>) {
    w.Valid() && w.Ok(visited, Elements(log), open)
  }

  /** What a visit leaves. */
  ghost predicate Visited(w: Walk, before: set<EdgeId>, ok: bool, visited: set<EdgeId>, log: seq<Node>,
                          open: set<Node>) {
    before <= visited && if ok then Visiting(w, visited, log, open) else w.IsRefused()
  }

  /** The first i edges of the list have been passed. */
  ghost predicate Passed(list: seq<EdgeId>, i: nat, visited: set<EdgeId>) {
    i <= |list| && forall j :: 0 <= j < i ==> list[j] in visited
  }

  lemma PassedMore(list: seq<EdgeId>, i: nat, visited: set<EdgeId>, visited': set<EdgeId>)
    requires Passed(list, i, visited) && i < |list| && visited <= visited' && list[i] in visited'
    ensures Passed(list, i + 1, visited')
  {
  }

  lemma AllPassed(list: seq<EdgeId>, visited: set<EdgeId>, e: EdgeId)
    requires Passed(list, |list|, visited) && e in list
    ensures e in visited
  {
  }

  /** The edges in the list lead to bs, which is being visited. */
  ghost predicate ParentEdges(w: Walk, list: seq<EdgeId>, bs: Node, open: set<Node>) {
    bs in open && w.Near(bs) && forall e :: e in list ==> e in w.g.uses && w.g.uses[e].target == bs
  }

  ghost predicate ChildEdges(w: Walk, list: seq<EdgeId>, user: Node, open: set<Node>) {
    user in open && w.Near(user) && forall e :: e in list ==> e in w.g.uses && w.g.uses[e].user == user
  }

  lemma NodeEdges(w: Walk, bs: Node, open: set<Node>)
    requires w.Valid() && bs in w.g.kinds && w.g.kinds[bs].BlockNode? && w.Near(bs)
    ensures ParentEdges(w, w.g.kinds[bs].parents, bs, open + {bs}) &&
            ChildEdges(w, w.g.kinds[bs].children, bs, open + {bs})
  {
  }

  lemma JobEdges(w: Walk, job: Node, open: set<Node>)
    requires w.Valid() && job in w.g.kinds && w.g.kinds[job].Job? && w.Near(job)
    ensures ChildEdges(w, w.g.kinds[job].nodes, job, open + {job})
  {
  }

  /** All edges of a node have been passed, so it can be collected. */
  lemma CollectNode(w: Walk, visited: set<EdgeId>, visited': set<EdgeId>, log: seq<Node>, open: set<Node>, bs: Node)
    requires Visiting(w, visited', log, open + {bs}) && bs in w.g.kinds && w.g.kinds[bs].BlockNode? && w.Near(bs) &&
             visited <= visited'
    requires Passed(w.g.kinds[bs].parents, |w.g.kinds[bs].parents|, visited)
    requires Passed(w.g.kinds[bs].children, |w.g.kinds[bs].children|, visited')
    ensures Visiting(w, visited', log + [bs], open)
  {
    forall e | At(w.g.kinds[bs], e) ensures e in visited' {
      if e in w.g.kinds[bs].parents {
        AllPassed(w.g.kinds[bs].parents, visited, e);
      } else {
        AllPassed(w.g.kinds[bs].children, visited', e);
      }
    }
    Collect(w, visited', log, open, bs);
  }

  lemma CollectJob(w: Walk, visited: set<EdgeId>, log: seq<Node>, open: set<Node>, job: Node)
    requires Visiting(w, visited, log, open + {job}) && job in w.g.kinds && w.g.kinds[job].Job? && w.Near(job)
    requires Passed(w.g.kinds[job].nodes, |w.g.kinds[job].nodes|, visited)
    ensures Visiting(w, visited, log + [job], open)
  {
    forall e | At(w.g.kinds[job], e) ensures e in visited {
      AllPassed(w.g.kinds[job].nodes, visited, e);
    }
    Collect(w, visited, log, open, job);
  }

  lemma CollectBackend(w: Walk, visited: set<EdgeId>, log: seq<Node>, open: set<Node>, blk: Node, c: EdgeId)
    requires Visiting(w, visited, log, open + {blk}) && blk in w.g.kinds && w.g.kinds[blk].Backend? &&
             w.g.kinds[blk].mayChange && w.Near(blk)
    requires c in visited && c in w.g.uses && w.g.uses[c].user == blk
    ensures Visiting(w, visited, log + [blk], open)
  {
    Collect(w, visited, log, open, blk);
  }

  /** The edge c, seen from one of its ends, which has been met; other is the other one. */
  lemma PassTo(w: Walk, visited: set<EdgeId>, log: seq<Node>, open: set<Node>, c: EdgeId, here: Node, other: Node)
    requires Visiting(w, visited, log, open) && c !in visited && Joins(w.g, c, here, other)
    requires w.Met(Elements(log), open, here) && w.Near(here)
    ensures Visiting(w, visited + {c}, log, open + {other}) && w.Near(other) && other in w.g.kinds
  {
    PassEdge(w, visited, Elements(log), open, open + {other}, c);
    NearOver(w, c, here, other);
  }

  /** bdrv_change_aio_context */
  method ChangeNode(w: Walk, bs: Node, visited: set<EdgeId>, log: seq<Node>, ghost open: set<Node>)
    returns (ok: bool, visited': set<EdgeId>, log': seq<Node>)
    requires Visiting(w, visited, log, open + {bs}) && bs in w.g.kinds && w.g.kinds[bs].BlockNode? && w.Near(bs)
    ensures Visited(w, visited, ok, visited', log', open)
    ensures ok && w.ctx[bs] != w.next ==> bs in log'
    ensures w.ctx[bs] == w.next ==> ok && log' == log
    decreases w.g.uses.Keys - visited, 3
  {
    ok, visited', log' := true, visited, log;
    if w.ctx[bs] == w.next {
      AlreadyThere(w, visited, Elements(log), open, bs);
      return;
    }
    NodeEdges(w, bs, open);
    ok, visited', log' := ChangeParents(w, bs, w.g.kinds[bs].parents, visited, log, open + {bs});
    if !ok {
      return;
    }
    ghost var mid := visited';
    ok, visited', log' := ChangeChildren(w, bs, w.g.kinds[bs].children, visited', log', open + {bs});
    if !ok {
      return;
    }
    CollectNode(w, mid, visited', log', open, bs);
    log' := log' + [bs];
  }

  method ChangeParents(w: Walk, bs: Node, list: seq<EdgeId>, visited: set<EdgeId>, log: seq<Node>,
                       ghost open: set<Node>)
    returns (ok: bool, visited': set<EdgeId>, log': seq<Node>)
    requires Visiting(w, visited, log, open) && ParentEdges(w, list, bs, open)
    ensures Visited(w, visited, ok, visited', log', open) && (ok ==> Passed(list, |list|, visited'))
    decreases w.g.uses.Keys - visited, 2
  {
    ok, visited', log' := true, visited, log;
    for i := 0 to |list|
      invariant visited <= visited' && Visiting(w, visited', log', open) && Passed(list, i, visited')
    {
      ghost var before := visited';
      ok, visited', log' := ChangeParent(w, list[i], visited', log', open);
      if !ok {
        return;
      }
      PassedMore(list, i, before, visited');
    }
    ok := true;
  }

  method ChangeChildren(w: Walk, user: Node, list: seq<EdgeId>, visited: set<EdgeId>, log: seq<Node>,
                        ghost open: set<Node>)
    returns (ok: bool, visited': set<EdgeId>, log': seq<Node>)
    requires Visiting(w, visited, log, open) && ChildEdges(w, list, user, open)
    ensures Visited(w, visited, ok, visited', log', open) && (ok ==> Passed(list, |list|, visited'))
    decreases w.g.uses.Keys - visited, 2
  {
    ok, visited', log' := true, visited, log;
    for i := 0 to |list|
      invariant visited <= visited' && Visiting(w, visited', log', open) && Passed(list, i, visited')
    {
      ghost var before := visited';
      ok, visited', log' := ChangeChild(w, list[i], visited', log', open);
      if !ok {
        return;
      }
      PassedMore(list, i, before, visited');
    }
    ok := true;
  }

  /** bdrv_parent_change_aio_context, with the callback of the user's class. */
  method ChangeParent(w: Walk, c: EdgeId, visited: set<EdgeId>, log: seq<Node>, ghost open: set<Node>)
    returns (ok: bool, visited': set<EdgeId>, log': seq<Node>)
    requires Visiting(w, visited, log, open) && c in w.g.uses && w.Met(Elements(log), open, w.g.uses[c].target) &&
             w.Near(w.g.uses[c].target)
    ensures Visited(w, visited, ok, visited', log', open) && (ok ==> c in visited')
    decreases w.g.uses.Keys - visited, 1
  {
    ok, visited', log' := true, visited, log;
    if c in visited {
      return;
    }
    var user := w.g.uses[c].user;
    PassTo(w, visited, log, open, c, w.g.uses[c].target, user);
    visited' := visited + {c};
    match w.g.kinds[user] {
      case Fixed =>
        RefusedAt(w, user);
        ok := false;
      case Backend(root, mayChange) =>
        if mayChange {
          CollectBackend(w, visited', log, open, user, c);
          log' := log + [user];
        } else {
          RefusedAt(w, user);
          ok := false;
        }
      case BlockNode(_, _) =>
        ok, visited', log' := ChangeNode(w, user, visited', log, open);
      case Job(_) =>
        ok, visited', log' := ChangeJob(w, user, visited', log, open);
    }
  }

  /** bdrv_child_change_aio_context */
  method ChangeChild(w: Walk, c: EdgeId, visited: set<EdgeId>, log: seq<Node>, ghost open: set<Node>)
    returns (ok: bool, visited': set<EdgeId>, log': seq<Node>)
    requires Visiting(w, visited, log, open) && c in w.g.uses && w.Met(Elements(log), open, w.g.uses[c].user) &&
             w.Near(w.g.uses[c].user)
    ensures Visited(w, visited, ok, visited', log', open) && (ok ==> c in visited')
    decreases w.g.uses.Keys - visited, 1
  {
    ok, visited', log' := true, visited, log;
    if c in visited {
      return;
    }
    var target := w.g.uses[c].target;
    PassTo(w, visited, log, open, c, w.g.uses[c].user, target);
    ok, visited', log' := ChangeNode(w, target, visited + {c}, log, open);
  }

  /** child_job_change_aio_ctx */
  method ChangeJob(w: Walk, job: Node, visited: set<EdgeId>, log: seq<Node>, ghost open: set<Node>)
    returns (ok: bool, visited': set<EdgeId>, log': seq<Node>)
    requires Visiting(w, visited, log, open + {job}) && job in w.g.kinds && w.g.kinds[job].Job? && w.Near(job)
    ensures Visited(w, visited, ok, visited', log', open)
    decreases w.g.uses.Keys - visited, 3
  {
    JobEdges(w, job, open);
    ok, visited', log' := ChangeChildren(w, job, w.g.kinds[job].nodes, visited, log, open + {job});
    if !ok {
      return;
    }
    CollectJob(w, visited', log', open, job);
    log' := log' + [job];
  }

  // ------------------------------------------------------------ moving what has been collected

  function MoveAll(ctx: map<Node, Context>, log: seq<Node>, next: Context): map<Node, Context>
    decreases log
  {
    if log == [] then ctx else MoveAll(ctx[log[|log| - 1] := next], log[..|log| - 1], next)
  }

  lemma {:induction false} MoveAllMoves(ctx: map<Node, Context>, log: seq<Node>, next: Context)
    ensures MoveAll(ctx, log, next).Keys == ctx.Keys + Elements(log)
    ensures forall t :: t in ctx || t in log ==> MoveAll(ctx, log, next)[t] == if t in log then next else ctx[t]
    decreases log
  {
    if log != [] {
      var last, rest := log[|log| - 1], log[..|log| - 1];
      assert log == rest + [last];
      MoveAllMoves(ctx[last := next], rest, next);
    }
  }

  /** Everything that was collected, and nothing else, has moved. */
  lemma MovedIs(w: Walk, log: seq<Node>)
    requires w.Valid() && forall t :: t in w.g.kinds ==> (t in Elements(log) <==> w.Near(t))
    requires Elements(log) <= w.g.kinds.Keys
    ensures var r := MoveAll(w.ctx, log, w.next);
            r.Keys == w.ctx.Keys && forall t :: t in r ==> r[t] == if w.Near(t) then w.next else w.ctx[t]
  {
    MoveAllMoves(w.ctx, log, w.next);
  }

  class Mover {
    const g: Network
    var ctx: map<Node, Context>
    /** The transaction. */
    var log: seq<Node>

    /** tran_commit: everything that was collected moves. */
    method Commit(next: Context)
      modifies this`ctx, this`log
      ensures log == [] && ctx == MoveAll(old(ctx), old(log), next)
    {
      while log != []
        invariant MoveAll(ctx, log, next) == MoveAll(old(ctx), old(log), next)
        decreases |log|
      {
        ctx := ctx[log[|log| - 1] := next];
        log := log[..|log| - 1];
      }
    }

    /** bdrv_try_change_aio_context_locked; the edge ignoreChild, if any, is not followed. */
    method TryChange(bs: Node, next: Context, ignoreChild: Option<EdgeId>) returns (ok: bool)
      requires g.Valid() && bs in g.kinds && g.kinds[bs].BlockNode?
      requires Uniform(g, if ignoreChild.Some? then {ignoreChild.value} else {}, ctx)
      modifies this`ctx, this`log
      ensures var skip := if ignoreChild.Some? then {ignoreChild.value} else {};
              && (ok <==> old(ctx)[bs] == next || !Refused(g, skip, bs))
              && (!ok || old(ctx)[bs] == next ==> ctx == old(ctx))
              && (ok && old(ctx)[bs] != next ==>
                    ctx.Keys == old(ctx).Keys &&
                    forall t :: t in ctx ==> ctx[t] == if Reach(Links(g, skip), bs, t) then next else old(ctx)[t])
    {
      var skip := if ignoreChild.Some? then {ignoreChild.value} else {};
      var w := Walk(g, skip, ctx, next, bs);
      ReachRefl(Links(g, skip), bs);
      var visited;
      ok, visited, log := ChangeNode(w, bs, skip, [], {});
      if !ok {
        log := [];
        return;
      }
      if ctx[bs] != next {
        WalkIsComplete(w, visited, Elements(log));
        MovedIs(w, log);
      }
      Commit(next);
    }
  }
}
