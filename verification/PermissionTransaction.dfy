/**
 The permission refresh as block.c runs it: edge permissions are overwritten in place while
 a transaction remembers what to undo, and drivers hear of the new permissions only when
 the transaction commits.
 */
module PermissionTransaction {
  import opened Options
  import opened Digraph
  import opened TopologicalOrder
  import opened Permissions
  import Loosening

  /** tran_add of bdrv_child_set_pem_drv and of bdrv_drv_set_perm_drv. */
  datatype Action = SetPerm(edge: EdgeId, old': Perms) | DriverSetPerm(node: Node)

  /** The permissions once the logged actions are undone, the latest first. */
  function Unwound(perms: Assignment, log: seq<Action>): Assignment
    decreases log
  {
    if log == [] then perms
    else
      var last := log[|log| - 1];
      Unwound(if last.SetPerm? then perms[last.edge := last.old'] else perms, log[..|log| - 1])
  }

  /** The nodes whose drivers hear of the outcome, in the order in which they do. */
  function Told(log: seq<Action>): seq<Node> {
    if log == [] then []
    else
      var last := log[|log| - 1];
      (if last.DriverSetPerm? then [last.node] else []) + Told(log[..|log| - 1])
  }

  lemma PopTold(log: seq<Action>)
    requires log != []
    ensures var last, rest := log[|log| - 1], Told(log[..|log| - 1]);
            if last.DriverSetPerm? then Told(log) != [] && Told(log)[0] == last.node && Told(log)[1..] == rest
            else Told(log) == rest
  {
  }

  /** Setting an edge and logging its old value leaves the undone assignment as it was. */
  lemma UnwoundSet(perms: Assignment, log: seq<Action>, e: EdgeId, p: Perms)
    requires e in perms
    ensures Unwound(perms[e := p], log + [SetPerm(e, perms[e])]) == Unwound(perms, log)
  {
    var log' := log + [SetPerm(e, perms[e])];
    assert log'[..|log'| - 1] == log;
    assert perms[e := p][e := perms[e]] == perms;
  }

  lemma UnwoundTold(perms: Assignment, log: seq<Action>, n: Node)
    ensures Unwound(perms, log + [DriverSetPerm(n)]) == Unwound(perms, log)
    ensures Told(log + [DriverSetPerm(n)]) == [n] + Told(log)
  {
  }

  lemma ToldSet(log: seq<Action>, e: EdgeId, p: Perms)
    ensures Told(log + [SetPerm(e, p)]) == Told(log)
  {
  }

  function NodesOf(checked: seq<(Node, Perms)>): seq<Node> {
    if checked == [] then [] else [checked[0].0] + NodesOf(checked[1..])
  }

  lemma NodesOfCons(n: Node, c: Perms, checked: seq<(Node, Perms)>)
    ensures NodesOf([(n, c)] + checked) == [n] + NodesOf(checked)
  {
    assert ([(n, c)] + checked)[1..] == checked;
  }

  /** The nodes of a list that have a driver, the last one first. */
  function Drivers(h: Hooks, list: seq<Node>): (r: seq<Node>)
    ensures forall n :: n in r ==> n in list
  {
    if list == [] then []
    else
      var last := list[|list| - 1];
      (if h.driver(last) then [last] else []) + Drivers(h, list[..|list| - 1])
  }

  /** Each of these nodes with its cumulative permissions. */
  ghost function WithCumulative(g: Graph, perms: Assignment, nodes: seq<Node>): (r: seq<(Node, Perms)>)
    requires Covers(perms, g) && forall n :: n in nodes ==> n in g.parents
  {
    if nodes == [] then []
    else [(nodes[0], NodeCumulative(g, perms, nodes[0]))] + WithCumulative(g, perms, nodes[1..])
  }

  /** What bdrv_set_perm has been told and will be told by the rest of the log comes to the same. */
  ghost predicate Delivers(g: Graph, perms: Assignment, delivered: seq<(Node, Perms)>, log: seq<Action>,
                           all: seq<(Node, Perms)>) {
    && Covers(perms, g) && (forall n :: n in Told(log) ==> n in g.parents)
    && delivered + WithCumulative(g, perms, Told(log)) == all
  }

  lemma DeliverNext(g: Graph, perms: Assignment, delivered: seq<(Node, Perms)>, log: seq<Action>,
                    all: seq<(Node, Perms)>)
    requires Delivers(g, perms, delivered, log, all) && log != []
    ensures var last, rest := log[|log| - 1], log[..|log| - 1];
            if last.SetPerm? then Delivers(g, perms, delivered, rest, all)
            else
              && last.node in g.parents
              && Delivers(g, perms, delivered + [(last.node, NodeCumulative(g, perms, last.node))], rest, all)
  {
    PopTold(log);
    var last, nodes := log[|log| - 1], Told(log);
    if last.DriverSetPerm? {
      assert delivered + [(nodes[0], NodeCumulative(g, perms, nodes[0]))] + WithCumulative(g, perms, nodes[1..]) ==
             delivered + WithCumulative(g, perms, nodes);
    }
  }

  lemma ToldNext(h: Hooks, list: seq<Node>, i: nat, rest: seq<Node>)
    requires i < |list|
    ensures (if h.driver(list[i]) then [list[i]] else []) + (Drivers(h, list[..i]) + rest) ==
            Drivers(h, list[..i + 1]) + rest
  {
    assert list[..i + 1][..i] == list[..i];
  }

  lemma CheckedNext(g: Graph, h: Hooks, perms: Assignment, list: seq<Node>, i: nat, rest: seq<(Node, Perms)>)
    requires i < |list| && Covers(perms, g) && forall n :: n in list ==> n in g.parents
    ensures (if h.driver(list[i]) then [(list[i], NodeCumulative(g, perms, list[i]))] else []) +
            (WithCumulative(g, perms, Drivers(h, list[..i])) + rest) ==
            WithCumulative(g, perms, Drivers(h, list[..i + 1])) + rest
  {
    assert list[..i + 1][..i] == list[..i];
    var before, after := Drivers(h, list[..i]), Drivers(h, list[..i + 1]);
    if h.driver(list[i]) {
      assert after[0] == list[i] && after[1..] == before;
    } else {
      assert after == before;
    }
  }

  /** bdrv_get_cumulative_perm over the parents list of a node. */
  method CumulativePerm(perms: Assignment, parents: seq<EdgeId>) returns (r: Perms)
    requires forall e :: e in parents ==> e in perms
    ensures r == Cumulative(perms, parents)
  {
    r := Perms({}, ALL);
    var i := 0;
    while i < |parents|
      invariant 0 <= i <= |parents|
      invariant forall p :: p in r.perm <==> exists j :: 0 <= j < i && p in perms[parents[j]].perm
      invariant forall p :: p in r.shared <==> p in ALL && forall j :: 0 <= j < i ==> p in perms[parents[j]].shared
    {
      r := Perms(r.perm + perms[parents[i]].perm, r.shared * perms[parents[i]].shared);
      i := i + 1;
    }
    var c := Cumulative(perms, parents);
    assert c.perm == r.perm && c.shared == r.shared;
  }

  /** bdrv_parent_perms_conflict over the parents list of a node. */
  method ParentPermsConflict(perms: Assignment, parents: seq<EdgeId>) returns (conflict: bool)
    requires forall e :: e in parents ==> e in perms
    ensures conflict <==> !NoConflict(perms, parents)
  {
    var i := 0;
    while i < |parents|
      invariant 0 <= i <= |parents|
      invariant forall a, b :: 0 <= a < i && 0 <= b < |parents| && parents[a] != parents[b] ==>
                                 perms[parents[b]].perm <= perms[parents[a]].shared
    {
      var j := 0;
      while j < |parents|
        invariant 0 <= j <= |parents|
        invariant forall b :: 0 <= b < j && parents[i] != parents[b] ==>
                                perms[parents[b]].perm <= perms[parents[i]].shared
      {
        if parents[i] != parents[j] && !(perms[parents[j]].perm <= perms[parents[i]].shared) {
          return true;
        }
        j := j + 1;
      }
      i := i + 1;
    }
    return false;
  }

  lemma SetIsForward(g: Graph, h: Hooks, p: Assignment, q: Assignment, bs: Node)
    requires Covers(p, g) && bs in g.children && q.Keys == p.Keys
    requires forall e :: e in q ==>
               q[e] == if h.driver(bs) && h.hasChildPerm(bs) && e in g.children[bs]
                       then h.childPerm(bs, e, NodeCumulative(g, p, bs)) else p[e]
    ensures q == Forward(g, h, p, bs)
  {
  }

  /** bdrv_topological_dfs from one node. */
  method Subtree(g: Graph, bs: Node) returns (list: seq<Node>)
    requires g.Valid() && Acyclic(Down(g)) && bs in g.children
    ensures RefreshList(g, list) && forall n :: n in list <==> n in Below(Down(g), bs)
  {
    DownIsArrows(g);
    list := ListDfs(g.ChildNodes(), [bs]);
    assert forall n :: n in list <==> n in Below(Down(g), [bs][0]);
  }

  lemma NothingLeft(a: set<Perm>, b: set<Perm>)
    ensures a - b == {} <==> a <= b
  {
    forall x | x in a && x !in b ensures a - b != {} {
      assert x in a - b;
    }
  }

  /** p asks for a permission q does not ask for, or withholds one that q shares. */
  predicate Tightens(p: Perms, q: Perms): (r: bool)
    ensures r <==> !Loosening.Looser(p, q)
  {
    NothingLeft(p.perm, q.perm);
    NothingLeft(q.shared, p.shared);
    p.perm - q.perm != {} || q.shared - p.shared != {}
  }

  /** Edge permissions, drivers to be told and permissions checked so far. */
  datatype Progress = Progress(perms: Assignment, told: seq<Node>, checked: seq<(Node, Perms)>)

  /** Where bdrv_do_refresh_perms stands after i nodes, whatever becomes of the others. */
  ghost predicate RefreshedUpTo(g: Graph, h: Hooks, s: Progress, list: seq<Node>, i: nat, t: Progress) {
    && Covers(s.perms, g) && Covers(t.perms, g) && RefreshList(g, list)
    && i <= |list| && RefreshList(g, list[i..])
    && Refresh(g, h, t.perms, list[i..]) == Refresh(g, h, s.perms, list)
    && t.told == Drivers(h, list[..i]) + s.told
    && (Refresh(g, h, s.perms, list).Some? ==>
          t.checked == WithCumulative(g, Refresh(g, h, s.perms, list).value, Drivers(h, list[..i])) + s.checked)
  }

  lemma RefreshStarts(g: Graph, h: Hooks, s: Progress, list: seq<Node>)
    requires Covers(s.perms, g) && RefreshList(g, list)
    ensures RefreshedUpTo(g, h, s, list, 0, s)
  {
  }

  lemma RefreshAdvances(g: Graph, h: Hooks, s: Progress, list: seq<Node>, i: nat, t: Progress, u: Progress)
    requires g.Valid() && i < |list| && RefreshedUpTo(g, h, s, list, i, t)
    requires RefreshNode(g, h, t.perms, list[i]) == Some(u.perms)
    requires u.told == (if h.driver(list[i]) then [list[i]] else []) + t.told
    requires u.checked ==
             (if h.driver(list[i]) then [(list[i], NodeCumulative(g, t.perms, list[i]))] else []) + t.checked
    ensures RefreshedUpTo(g, h, s, list, i + 1, u)
  {
    RefreshStep(g, h, t.perms, list, i);
    ToldNext(h, list, i, s.told);
    var result := Refresh(g, h, s.perms, list);
    if result.Some? {
      FirstStaysConsistent(g, h, t.perms, list[i..]);
      CheckedNext(g, h, result.value, list, i, s.checked);
    }
  }

  lemma RefreshEnds(g: Graph, h: Hooks, s: Progress, list: seq<Node>, t: Progress)
    requires RefreshedUpTo(g, h, s, list, |list|, t)
    ensures Refresh(g, h, s.perms, list) == Some(t.perms)
    ensures t.told == Drivers(h, list) + s.told
    ensures t.checked == WithCumulative(g, t.perms, Drivers(h, list)) + s.checked
  {
    assert list[..|list|] == list;
  }

  class Transaction {
    const g: Graph
    const h: Hooks
    var perms: Assignment
    var log: seq<Action>
    /**
     What bdrv_check_perm has accepted, the latest first; what bdrv_set_perm has been told;
     which drivers have heard bdrv_abort_perm_update.
     */
    var checked: seq<(Node, Perms)>
    var delivered: seq<(Node, Perms)>
    var withdrawn: seq<Node>

    ghost predicate Valid()
      reads this
    {
      g.Valid() && Covers(perms, g)
    }

    /** The drivers that will hear of the outcome are those whose check has accepted. */
    ghost predicate AllNoted()
      reads this
    {
      Told(log) == NodesOf(checked)
    }

    constructor (g: Graph, h: Hooks, perms: Assignment)
      requires g.Valid() && Covers(perms, g)
      ensures this.g == g && this.h == h && this.perms == perms
      ensures Valid() && log == [] && checked == [] && delivered == [] && withdrawn == []
    {
      this.g, this.h, this.perms := g, h, perms;
      log, checked, delivered, withdrawn := [], [], [], [];
    }

    /** bdrv_child_set_perm */
    method SetPerm(e: EdgeId, p: Perms)
      requires e in perms
      modifies this`perms, this`log
      ensures perms == old(perms)[e := p] && perms.Keys == old(perms.Keys)
      ensures Unwound(perms, log) == old(Unwound(perms, log)) && Told(log) == old(Told(log))
    {
      UnwoundSet(perms, log, e, p);
      ToldSet(log, e, perms[e]);
      log := log + [Action.SetPerm(e, perms[e])];
      perms := perms[e := p];
    }

    /** The loop over bs->children at the end of bdrv_node_refresh_perm. */
    method SetChildren(bs: Node, list: seq<EdgeId>, c: Perms)
      requires forall e :: e in list ==> e in perms
      modifies this`perms, this`log
      ensures Unwound(perms, log) == old(Unwound(perms, log)) && Told(log) == old(Told(log))
      ensures perms.Keys == old(perms.Keys)
      ensures forall e :: e in perms ==> perms[e] == if e in list then h.childPerm(bs, e, c) else old(perms)[e]
    {
      var i := 0;
      while i < |list|
        invariant 0 <= i <= |list|
        invariant Unwound(perms, log) == old(Unwound(perms, log)) && Told(log) == old(Told(log))
        invariant perms.Keys == old(perms.Keys)
        invariant forall e :: e in perms ==> perms[e] == if e in list[..i] then h.childPerm(bs, e, c) else old(perms)[e]
      {
        SetPerm(list[i], h.childPerm(bs, list[i], c));
        assert list[..i + 1] == list[..i] + [list[i]];
        i := i + 1;
      }
      assert list[..i] == list;
    }

    /** bdrv_node_refresh_perm */
    method NodeRefreshPerm(bs: Node) returns (ok: bool)
      requires Valid() && bs in g.children
      modifies this`perms, this`log, this`checked
      ensures Valid() && Unwound(perms, log) == old(Unwound(perms, log)) && perms.Keys == old(perms.Keys)
      ensures ok == NodeAccepts(h, bs, old(NodeCumulative(g, perms, bs)))
      ensures ok ==> perms == old(Forward(g, h, perms, bs))
      ensures ok ==> Told(log) == (if h.driver(bs) then [bs] else []) + old(Told(log))
      ensures ok ==> checked == (if h.driver(bs) then [(bs, old(NodeCumulative(g, perms, bs)))] else []) + old(checked)
      ensures !ok ==> log == old(log) && checked == old(checked)
    {
      var c := CumulativePerm(perms, g.parents[bs]);
      if Writes(c) && !h.writable(bs) {
        return false;
      }
      if Writes(c) && Resize !in c.perm && !h.aligned(bs) {
        return false;
      }
      if !h.driver(bs) {
        SetIsForward(g, h, perms, perms, bs);
        assert [] + Told(log) == Told(log) && [] + checked == checked;
        return true;
      }
      if !h.accepts(bs, c) {
        return false;
      }
      checked := [(bs, c)] + checked;
      UnwoundTold(perms, log, bs);
      log := log + [DriverSetPerm(bs)];
      if h.hasChildPerm(bs) {
        SetChildren(bs, g.children[bs], c);
      }
      SetIsForward(g, h, old(perms), perms, bs);
      return true;
    }

    /** One turn of the loop of bdrv_do_refresh_perms. */
    method RefreshOne(bs: Node) returns (ok: bool)
      requires Valid() && bs in g.children
      modifies this`perms, this`log, this`checked
      ensures Valid() && Unwound(perms, log) == old(Unwound(perms, log)) && perms.Keys == old(perms.Keys)
      ensures ok == RefreshNode(g, h, old(perms), bs).Some?
      ensures ok ==> perms == RefreshNode(g, h, old(perms), bs).value
      ensures ok ==> Told(log) == (if h.driver(bs) then [bs] else []) + old(Told(log))
      ensures ok ==> checked == (if h.driver(bs) then [(bs, NodeCumulative(g, old(perms), bs))] else []) + old(checked)
      ensures old(AllNoted()) ==> AllNoted()
    {
      var conflict := ParentPermsConflict(perms, g.parents[bs]);
      if conflict {
        return false;
      }
      ok := NodeRefreshPerm(bs);
      NodesOfCons(bs, NodeCumulative(g, old(perms), bs), old(checked));
      assert [] + old(Told(log)) == old(Told(log)) && [] + old(checked) == old(checked);
    }

    /** The loop of bdrv_do_refresh_perms. */
    method RefreshLoop(list: seq<Node>, ghost start: Progress) returns (ok: bool)
      requires Valid() && RefreshedUpTo(g, h, start, list, 0, Progress(perms, Told(log), checked))
      modifies this`perms, this`log, this`checked
      ensures Valid() && Unwound(perms, log) == old(Unwound(perms, log)) && perms.Keys == old(perms.Keys)
      ensures ok ==> RefreshedUpTo(g, h, start, list, |list|, Progress(perms, Told(log), checked))
      ensures !ok ==> Refresh(g, h, start.perms, list).None?
      ensures old(AllNoted()) ==> AllNoted()
    {
      var i := 0;
      while i < |list|
        invariant 0 <= i <= |list|
        invariant Valid() && Unwound(perms, log) == old(Unwound(perms, log)) && perms.Keys == old(perms.Keys)
        invariant RefreshedUpTo(g, h, start, list, i, Progress(perms, Told(log), checked))
        invariant old(AllNoted()) ==> AllNoted()
      {
        ghost var before := Progress(perms, Told(log), checked);
        ok := RefreshOne(list[i]);
        if !ok {
          RefreshStep(g, h, before.perms, list, i);
          return false;
        }
        RefreshAdvances(g, h, start, list, i, before, Progress(perms, Told(log), checked));
        i := i + 1;
      }
      return true;
    }

    /** bdrv_do_refresh_perms */
    method DoRefreshPerms(list: seq<Node>) returns (ok: bool)
      requires Valid() && RefreshList(g, list)
      modifies this`perms, this`log, this`checked
      ensures Valid() && Unwound(perms, log) == old(Unwound(perms, log)) && perms.Keys == old(perms.Keys)
      ensures ok == Refresh(g, h, old(perms), list).Some?
      ensures ok ==> perms == Refresh(g, h, old(perms), list).value
      ensures ok ==> Told(log) == Drivers(h, list) + old(Told(log))
      ensures ok ==> checked == WithCumulative(g, perms, Drivers(h, list)) + old(checked)
      ensures old(AllNoted()) ==> AllNoted()
    {
      ghost var start := Progress(perms, Told(log), checked);
      RefreshStarts(g, h, start, list);
      ok := RefreshLoop(list, start);
      if ok {
        RefreshEnds(g, h, start, list, Progress(perms, Told(log), checked));
      }
    }

    /** tran_abort */
    method Abort()
      modifies this`perms, this`log, this`withdrawn
      ensures log == [] && perms == old(Unwound(perms, log)) && withdrawn == old(withdrawn + Told(log))
    {
      while log != []
        invariant Unwound(perms, log) == old(Unwound(perms, log))
        invariant withdrawn + Told(log) == old(withdrawn + Told(log))
        decreases |log|
      {
        var last := log[|log| - 1];
        PopTold(log);
        if last.SetPerm? {
          perms := perms[last.edge := last.old'];
        } else {
          assert withdrawn + Told(log) == withdrawn + [last.node] + Told(log[..|log| - 1]);
          withdrawn := withdrawn + [last.node];
        }
        log := log[..|log| - 1];
      }
    }

    /** tran_commit */
    method Commit()
      requires Covers(perms, g) && forall n :: n in Told(log) ==> n in g.parents
      modifies this`log, this`delivered
      ensures log == [] && delivered == old(delivered) + WithCumulative(g, perms, old(Told(log)))
    {
      ghost var all := delivered + WithCumulative(g, perms, Told(log));
      while log != []
        invariant Delivers(g, perms, delivered, log, all)
        decreases |log|
      {
        var last := log[|log| - 1];
        DeliverNext(g, perms, delivered, log, all);
        if last.DriverSetPerm? {
          var c := CumulativePerm(perms, g.parents[last.node]);
          delivered := delivered + [(last.node, c)];
        }
        log := log[..|log| - 1];
      }
    }

    /** tran_finalize */
    method Finalize(ok: bool)
      requires Valid() && (ok ==> forall n :: n in Told(log) ==> n in g.parents)
      modifies this`perms, this`log, this`delivered, this`withdrawn
      ensures log == []
      ensures ok ==> perms == old(perms) && delivered == old(delivered) + WithCumulative(g, perms, old(Told(log)))
      ensures ok ==> withdrawn == old(withdrawn)
      ensures !ok ==> perms == old(Unwound(perms, log)) && delivered == old(delivered)
      ensures !ok ==> withdrawn == old(withdrawn + Told(log))
    {
      if ok {
        Commit();
      } else {
        Abort();
      }
    }

    /** bdrv_list_refresh_perms for any list of roots, finalized */
    method ListRefreshPerms(roots: seq<Node>) returns (ok: bool, ghost list: seq<Node>)
      requires Valid() && Acyclic(Down(g)) && forall r :: r in roots ==> r in g.children
      requires log == [] && checked == [] && delivered == [] && withdrawn == []
      modifies this`perms, this`log, this`checked, this`delivered, this`withdrawn
      ensures RefreshList(g, list)
      ensures forall n :: n in list <==> exists i :: 0 <= i < |roots| && n in Below(Down(g), roots[i])
      ensures ok == Refresh(g, h, old(perms), list).Some?
      ensures ok ==> perms == Refresh(g, h, old(perms), list).value
      ensures ok ==> delivered == checked == WithCumulative(g, perms, Drivers(h, list)) && withdrawn == []
      ensures !ok ==> perms == old(perms) && delivered == [] && withdrawn == NodesOf(checked)
    {
      DownIsArrows(g);
      var order := ListDfs(g.ChildNodes(), roots);
      list := order;
      ok := RefreshAndFinalize(order);
    }

    /** bdrv_do_refresh_perms and tran_finalize */
    method RefreshAndFinalize(list: seq<Node>) returns (ok: bool)
      requires Valid() && RefreshList(g, list) && Told(log) == [] && checked == [] && delivered == [] && withdrawn == []
      modifies this`perms, this`log, this`checked, this`delivered, this`withdrawn
      ensures log == [] && ok == Refresh(g, h, old(perms), list).Some?
      ensures ok ==> perms == Refresh(g, h, old(perms), list).value
      ensures ok ==> delivered == checked == WithCumulative(g, perms, Drivers(h, list)) && withdrawn == []
      ensures !ok ==> perms == old(Unwound(perms, log)) && delivered == [] && withdrawn == NodesOf(checked)
    {
      ok := DoRefreshPerms(list);
      assert ok ==> Told(log) == Drivers(h, list);
      Finalize(ok);
    }

    /** bdrv_child_set_perm, bdrv_refresh_perms of the child node and tran_finalize */
    method SetAndRefresh(c: EdgeId, p: Perms, list: seq<Node>) returns (refreshed: bool)
      requires Valid() && RefreshList(g, list) && c in perms
      requires log == [] && checked == [] && delivered == [] && withdrawn == []
      modifies this`perms, this`log, this`checked, this`delivered, this`withdrawn
      ensures refreshed == Refresh(g, h, old(perms)[c := p], list).Some?
      ensures refreshed ==> perms == Refresh(g, h, old(perms)[c := p], list).value
      ensures refreshed ==> delivered == checked == WithCumulative(g, perms, Drivers(h, list)) && withdrawn == []
      ensures !refreshed ==> perms == old(perms) && delivered == [] && withdrawn == NodesOf(checked)
    {
      assert Unwound(perms, log) == perms && Told(log) == [];
      SetPerm(c, p);
      refreshed := RefreshAndFinalize(list);
    }

    /**
     bdrv_child_try_set_perm.  The transaction succeeds or everything is as before; the
     caller sees an error only when it asked for more or offered to share less.
     */
    method ChildTrySetPerm(c: EdgeId, p: Perms) returns (ret: bool, refreshed: bool, ghost list: seq<Node>)
      requires Valid() && Acyclic(Down(g)) && c in g.edges && c in perms
      requires log == [] && checked == [] && delivered == [] && withdrawn == []
      modifies this`perms, this`log, this`checked, this`delivered, this`withdrawn
      ensures RefreshList(g, list) && forall n :: n in list <==> n in Below(Down(g), g.edges[c].target)
      ensures refreshed == Refresh(g, h, old(perms)[c := p], list).Some?
      ensures refreshed ==>
                perms == Refresh(g, h, old(perms)[c := p], list).value && delivered == checked && withdrawn == []
      ensures !refreshed ==> perms == old(perms) && delivered == [] && withdrawn == NodesOf(checked)
      ensures ret <==> refreshed || Loosening.Looser(p, old(perms)[c])
    {
      var order := Subtree(g, g.edges[c].target);
      list := order;
      refreshed := SetAndRefresh(c, p, order);
      ret := true;
      if !refreshed {
        ret := !Tightens(p, perms[c]);
      }
    }
  }

  /** A refresh that was committed leaves every node below its roots consistent. */
  lemma CommittedIsConsistent(g: Graph, h: Hooks, perms: Assignment, list: seq<Node>)
    requires g.Valid() && RefreshList(g, list) && Covers(perms, g) && Refresh(g, h, perms, list).Some?
    ensures forall n :: n in list ==> Consistent(g, h, Refresh(g, h, perms, list).value, n)
  {
    forall n | n in list ensures Consistent(g, h, Refresh(g, h, perms, list).value, n) {
      RefreshConsistent(g, h, perms, list, n);
    }
  }
}
