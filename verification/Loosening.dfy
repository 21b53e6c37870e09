/**
 The default permission functions of block.c and why loosening never fails: asking for
 less, sharing more, dropping a parent or marking a writer-free node inactive keeps every
 later step of the refresh at least as loose as the consistent graph it started from.
 */
module Loosening {
  import opened Options
  import opened Digraph
  import opened Sequences
  import opened Permissions

  // ------------------------------------------------------------ bdrv_default_perms

  /** The open flags consulted: BDRV_O_RDWR, BDRV_O_INACTIVE and BDRV_O_NO_IO. */
  datatype Flags = Flags(readWrite: bool, inactive: bool, noIo: bool)

  predicate IsWritable(f: Flags) { f.readWrite && !f.inactive }

  /** DEFAULT_PERM_PASSTHROUGH and DEFAULT_PERM_UNCHANGED. */
  const PASSTHROUGH: set<Perm> := {ConsistentRead, Write, WriteUnchanged, Resize}
  const UNCHANGED: set<Perm> := ALL - PASSTHROUGH

  function FilterPerms(c: Perms): Perms {
    Perms(c.perm * PASSTHROUGH, c.shared * PASSTHROUGH + UNCHANGED)
  }

  function CowPerms(f: Flags, c: Perms): Perms {
    var shared := (if Write in c.shared then {Write, Resize} else {}) + {ConsistentRead, WriteUnchanged};
    Perms(c.perm * {ConsistentRead}, if f.inactive then shared + {Write, Resize} else shared)
  }

  /** The metadata part of bdrv_default_perms_for_storage. */
  function MetadataPerms(f: Flags, c: Perms): Perms {
    Perms(c.perm + (if IsWritable(f) then {Write, Resize} else {}) + (if f.noIo then {} else {ConsistentRead}),
          c.shared - {Write, Resize})
  }

  /** The data part of bdrv_default_perms_for_storage. */
  function DataPerms(c: Perms): Perms {
    var perm := if WriteUnchanged in c.perm then c.perm + {Write} else c.perm;
    Perms(if Write in perm then perm + {Resize} else perm, c.shared - {Resize})
  }

  function StoragePerms(f: Flags, data: bool, metadata: bool, c: Perms): Perms {
    var filtered := FilterPerms(c);
    var meta := if metadata then MetadataPerms(f, filtered) else filtered;
    var r := if data then DataPerms(meta) else meta;
    if f.inactive then r.(shared := r.shared + {Write, Resize}) else r
  }

  function DefaultPerms(f: Flags, role: Role, c: Perms): Perms {
    match role
    case Filtered => FilterPerms(c)
    case Cow => CowPerms(f, c)
    case Storage(data, metadata, _) => StoragePerms(f, data, metadata, c)
  }

  // ------------------------------------------------------------ looser permissions

  /** p asks for no more than q and shares no less. */
  predicate Looser(p: Perms, q: Perms) {
    p.perm <= q.perm && q.shared <= p.shared
  }

  /** The same flags, or the same but inactive. */
  predicate SameOrInactive(f': Flags, f: Flags) {
    f' == f || f' == f.(inactive := true)
  }

  lemma DefaultPermsMonotone(f': Flags, f: Flags, role: Role, c': Perms, c: Perms)
    requires SameOrInactive(f', f) && Looser(c', c)
    ensures Looser(DefaultPerms(f', role, c'), DefaultPerms(f, role, c))
  {
  }

  lemma CumulativeLooser(p': Assignment, edges': seq<EdgeId>, p: Assignment, edges: seq<EdgeId>)
    requires (forall e :: e in edges ==> e in p) && forall e :: e in edges' ==> e in p'
    requires forall e :: e in edges' ==> e in edges && Looser(p'[e], p[e])
    ensures Looser(Cumulative(p', edges'), Cumulative(p, edges))
    ensures NoConflict(p, edges) ==> NoConflict(p', edges')
  {
  }

  // ------------------------------------------------------------ the general argument

  /** g' has the nodes of g and some of its edges. */
  ghost predicate SubGraph(g': Graph, g: Graph) {
    && g'.children.Keys == g.children.Keys
    && (forall e :: e in g'.edges ==> e in g.edges && g.edges[e] == g'.edges[e])
  }

  /** h' forwards no more than h and its drivers accept everything. */
  ghost predicate HooksLooser(h': Hooks, h: Hooks) {
    && (forall n :: Forwards(h', n) ==> Forwards(h, n))
    && (forall n :: h'.aligned(n))
    && (forall n, p :: h'.accepts(n, p))
    && (forall n, e, p, q :: Looser(p, q) ==> Looser(h'.childPerm(n, e, p), h.childPerm(n, e, q)))
  }

  /** A node that stops being writable has no writer. */
  ghost predicate StaysWritable(g: Graph, h': Hooks, h: Hooks, perms: Assignment, n: Node)
    requires Covers(perms, g) && n in g.parents
  {
    h.writable(n) ==> h'.writable(n) || !Writes(NodeCumulative(g, perms, n))
  }

  ghost predicate AllLooser(p': Assignment, p: Assignment) {
    forall e :: e in p' ==> e in p && Looser(p'[e], p[e])
  }

  /**
   Starting from permissions that are looser than those of a consistent graph, every step of
   the refresh succeeds and stays looser.
   */
  lemma {:induction false} LooserRefreshSucceeds(g': Graph, h': Hooks, p': Assignment,
                                                 g: Graph, h: Hooks, p: Assignment, list: seq<Node>)
    requires g'.Valid() && RefreshList(g', list) && g.Valid() && SubGraph(g', g)
    requires Covers(p', g') && Covers(p, g) && AllLooser(p', p) && HooksLooser(h', h)
    requires forall n :: n in list ==> Consistent(g, h, p, n) && StaysWritable(g, h', h, p, n)
    ensures Refresh(g', h', p', list).Some? && AllLooser(Refresh(g', h', p', list).value, p)
  {
    if list != [] {
      TailIsList(g', list);
      assert Consistent(g, h, p, list[0]) && StaysWritable(g, h', h, p, list[0]);
      LooserStepSucceeds(g', h', p', g, h, p, list[0]);
      LooserRefreshSucceeds(g', h', Forward(g', h', p', list[0]), g, h, p, list[1..]);
    }
  }

  lemma SubGraphLists(g': Graph, g: Graph, n: Node)
    requires g'.Valid() && g.Valid() && SubGraph(g', g) && n in g'.children
    ensures forall e :: e in g'.children[n] ==> e in g.children[n]
    ensures forall e :: e in g'.parents[n] ==> e in g.parents[n]
  {
    assert n in g.children.Keys && n in g.parents;
    forall e | e in g'.children[n] ensures e in g.children[n] {
      assert e in g'.edges && g'.edges[e].owner == Some(n);
    }
    forall e | e in g'.parents[n] ensures e in g.parents[n] {
      assert e in g'.edges && g'.edges[e].target == n;
    }
  }

  lemma LooserStepSucceeds(g': Graph, h': Hooks, p': Assignment, g: Graph, h: Hooks, p: Assignment, n: Node)
    requires g'.Valid() && g.Valid() && SubGraph(g', g) && n in g'.children
    requires Covers(p', g') && Covers(p, g) && AllLooser(p', p) && HooksLooser(h', h)
    requires Consistent(g, h, p, n) && StaysWritable(g, h', h, p, n)
    ensures RefreshNode(g', h', p', n).Some?
    ensures AllLooser(Forward(g', h', p', n), p)
  {
    var c', c := NodeCumulative(g', p', n), NodeCumulative(g, p, n);
    SubGraphLists(g', g, n);
    CumulativeLooser(p', g'.parents[n], p, g.parents[n]);
    var next := Forward(g', h', p', n);
    forall e | e in next ensures e in p && Looser(next[e], p[e]) {
      if Forwards(h', n) && e in g'.children[n] {
        assert Looser(h'.childPerm(n, e, c'), h.childPerm(n, e, c));
      }
    }
  }

  // ------------------------------------------------------------ the three uses

  /** Node flags, edge roles and force_share of a graph whose drivers all use bdrv_default_perms. */
  datatype Env = Env(flags: Node -> Flags, role: EdgeId -> Role, forceShare: EdgeId -> bool)

  /** Default permission functions, accepting drivers, sizes aligned to the request alignment. */
  function DefaultHooks(env: Env): Hooks {
    Hooks((n: Node) => true,
          (n: Node) => IsWritable(env.flags(n)),
          (n: Node) => true,
          (n: Node) => true,
          (n: Node, p: Perms) => true,
          (n: Node, e: EdgeId, p: Perms) =>
            var r := DefaultPerms(env.flags(n), env.role(e), p);
            if env.forceShare(e) then r.(shared := ALL) else r)
  }

  /** env' is env with node n marked inactive. */
  ghost predicate MarkedInactive(env': Env, env: Env, n: Node) {
    && env'.flags(n) == env.flags(n).(inactive := true)
    && (forall m :: m != n ==> env'.flags(m) == env.flags(m))
    && (forall e :: env'.role(e) == env.role(e) && env'.forceShare(e) == env.forceShare(e))
  }

  lemma DefaultHooksLooser(env': Env, env: Env)
    requires forall m :: SameOrInactive(env'.flags(m), env.flags(m))
    requires forall e :: env'.role(e) == env.role(e) && env'.forceShare(e) == env.forceShare(e)
    ensures HooksLooser(DefaultHooks(env'), DefaultHooks(env))
  {
    var h', h := DefaultHooks(env'), DefaultHooks(env);
    forall n, e, p, q | Looser(p, q) ensures Looser(h'.childPerm(n, e, p), h.childPerm(n, e, q)) {
      DefaultPermsMonotone(env'.flags(n), env.flags(n), env.role(e), p, q);
    }
  }

  /** Shrinking what an edge asks for and growing what it shares. */
  lemma LoosenEdgeSucceeds(g: Graph, env: Env, perms: Assignment, list: seq<Node>, edge: EdgeId, p: Perms)
    requires g.Valid() && RefreshList(g, list) && Covers(perms, g) && edge in perms && Looser(p, perms[edge])
    requires forall n :: n in list ==> Consistent(g, DefaultHooks(env), perms, n)
    ensures Refresh(g, DefaultHooks(env), perms[edge := p], list).Some?
  {
    DefaultHooksLooser(env, env);
    LooserRefreshSucceeds(g, DefaultHooks(env), perms[edge := p], g, DefaultHooks(env), perms, list);
  }

  function WithoutAll(lists: map<Node, seq<EdgeId>>, edge: EdgeId): (r: map<Node, seq<EdgeId>>)
    ensures r.Keys == lists.Keys
    ensures forall n, e :: n in r && e in r[n] ==> e in lists[n] && e != edge
    ensures forall n, e :: n in lists && e in lists[n] && e != edge ==> e in r[n]
  {
    map n | n in lists :: Without(lists[n], edge)
  }

  /** The graph after bdrv_replace_child_noperm(edge, NULL). */
  function DropEdge(g: Graph, edge: EdgeId): Graph {
    Graph(WithoutAll(g.children, edge), WithoutAll(g.parents, edge), g.edges - {edge})
  }

  lemma DropParents(parents: map<Node, seq<EdgeId>>, edges: map<EdgeId, Edge>, edge: EdgeId)
    requires ParentsOk(parents, edges)
    ensures ParentsOk(WithoutAll(parents, edge), edges - {edge})
  {
    var r, es := WithoutAll(parents, edge), edges - {edge};
    forall e | e in es ensures es[e].target in r && e in r[es[e].target] {
      assert e in parents[edges[e].target];
    }
    forall n, e | n in r && e in r[n] ensures e in es && es[e].target == n {
      assert e in parents[n];
    }
  }

  lemma DropChildren(children: map<Node, seq<EdgeId>>, edges: map<EdgeId, Edge>, edge: EdgeId)
    requires ChildrenOk(children, edges)
    ensures ChildrenOk(WithoutAll(children, edge), edges - {edge})
  {
  }

  lemma DropEdgeValid(g: Graph, edge: EdgeId)
    requires g.Valid()
    ensures DropEdge(g, edge).Valid() && SubGraph(DropEdge(g, edge), g)
  {
    DropParents(g.parents, g.edges, edge);
    DropChildren(g.children, g.edges, edge);
  }

  lemma FewerAreLooser(perms: Assignment, edge: EdgeId)
    ensures AllLooser(perms - {edge}, perms)
  {
  }

  /** bdrv_root_unref_child: taking a parent edge away, which leaves DropEdge(g, edge). */
  lemma DropEdgeSucceeds(g': Graph, g: Graph, env: Env, perms: Assignment, list: seq<Node>, edge: EdgeId)
    requires g.Valid() && g'.Valid() && RefreshList(g', list) && Covers(perms, g) && Covers(perms - {edge}, g')
    requires SubGraph(g', g) && g'.edges == g.edges - {edge}
    requires forall n :: n in list ==> Consistent(g, DefaultHooks(env), perms, n)
    ensures Refresh(g', DefaultHooks(env), perms - {edge}, list).Some?
  {
    DefaultHooksLooser(env, env);
    FewerAreLooser(perms, edge);
    LooserRefreshSucceeds(g', DefaultHooks(env), perms - {edge}, g, DefaultHooks(env), perms, list);
  }

  lemma OthersStayWritable(g: Graph, env': Env, env: Env, perms: Assignment, node: Node)
    requires Covers(perms, g) && node in g.parents && MarkedInactive(env', env, node)
    requires !Writes(NodeCumulative(g, perms, node))
    ensures forall n :: n in g.parents ==> StaysWritable(g, DefaultHooks(env'), DefaultHooks(env), perms, n)
  {
  }

  /** bdrv_inactivate_recurse: marking a node without writers inactive. */
  lemma InactivateSucceeds(g: Graph, env': Env, env: Env, perms: Assignment, list: seq<Node>, node: Node)
    requires g.Valid() && RefreshList(g, list) && Covers(perms, g) && node in g.parents
    requires MarkedInactive(env', env, node)
    requires !Writes(NodeCumulative(g, perms, node))
    requires forall n :: n in list ==> Consistent(g, DefaultHooks(env), perms, n)
    ensures Refresh(g, DefaultHooks(env'), perms, list).Some?
  {
    assert forall m :: SameOrInactive(env'.flags(m), env.flags(m));
    DefaultHooksLooser(env', env);
    OthersStayWritable(g, env', env, perms, node);
    LooserRefreshSucceeds(g, DefaultHooks(env'), perms, g, DefaultHooks(env), perms, list);
  }
}
