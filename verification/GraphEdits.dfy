/**
 Transactional edits of the block graph: retargeting, attaching and removing child edges,
 setting edge permissions and inherits_from.  A shape is everything an abort has to put
 back; every edit logs how to undo it, and nodes are reference counted throughout.
 */
module GraphEdits {
  import opened Counting
  import opened Options
  import opened Digraph
  import opened Permissions

  /** Which of bs->backing and bs->file an attached edge is registered as. */
  datatype Slot = NoLink | BackingLink | FileLink

  datatype Driver = Driver(isFilter: bool, filteredChildIsBacking: bool, supportsBacking: bool)

  /** What bdrv_child_cb_attach asserts of the role of a child. */
  predicate RoleOk(drv: Driver, role: Role) {
    match role
    case Filtered => true
    case Cow => !drv.isFilter && drv.supportsBacking
    case Storage(_, _, primary) => drv.isFilter ==> !primary
  }

  /** The case analysis of bdrv_child_cb_attach. */
  function SlotOf(drv: Driver, role: Role): Slot {
    match role
    case Filtered => if drv.filteredChildIsBacking then BackingLink else FileLink
    case Cow => BackingLink
    case Storage(_, _, primary) => if primary then FileLink else NoLink
  }

  /** bdrv_backing_role */
  function BackingRole(drv: Driver): Role {
    if drv.isFilter then Filtered else Cow
  }

  /** Where a backing child is registered: as bs->backing, unless a filter keeps its child in bs->file. */
  function BackingSlot(drv: Driver): (s: Slot)
    ensures s == if drv.isFilter && !drv.filteredChildIsBacking then FileLink else BackingLink
  {
    SlotOf(drv, BackingRole(drv))
  }

  /** A BdrvChild: c->opaque (None for a device or a job), where it is registered, c->bs and its permissions. */
  datatype Child = Child(owner: Option<Node>, slot: Slot, target: Option<Node>, perms: Perms)

  /** The edges, bs->inherits_from of every node, and the links bs->backing and bs->file that are set. */
  datatype Shape = Shape(
    edges: map<EdgeId, Child>,
    inherits: map<Node, Option<Node>>,
    links: map<(Node, Slot), EdgeId>)

  predicate Attached(s: Shape, e: EdgeId) {
    e in s.edges && s.edges[e].target.Some?
  }

  predicate Registered(c: Child) {
    c.owner.Some? && c.slot != NoLink
  }

  function Key(c: Child): (Node, Slot)
    requires c.owner.Some?
  {
    (c.owner.value, c.slot)
  }

  /** Owners and targets are nodes. */
  ghost predicate Total(s: Shape) {
    forall e :: e in s.edges ==>
                  && (s.edges[e].owner.Some? ==> s.edges[e].owner.value in s.inherits)
                  && (s.edges[e].target.Some? ==> s.edges[e].target.value in s.inherits)
  }

  /** bs->backing and bs->file are exactly the attached edges registered there. */
  ghost predicate LinksOk(s: Shape) {
    && (forall e :: Attached(s, e) && Registered(s.edges[e]) ==>
          Key(s.edges[e]) in s.links && s.links[Key(s.edges[e])] == e)
    && (forall k :: k in s.links ==>
          Attached(s, s.links[k]) && Registered(s.edges[s.links[k]]) && Key(s.edges[s.links[k]]) == k)
  }

  ghost predicate Wf(s: Shape) {
    Total(s) && LinksOk(s)
  }

  /** The link e would be registered as is not set. */
  predicate SlotFree(s: Shape, e: EdgeId) {
    e in s.edges && (Registered(s.edges[e]) ==> Key(s.edges[e]) !in s.links)
  }

  // ------------------------------------------------------------ retargeting an edge

  function SetTarget(s: Shape, e: EdgeId, t: Option<Node>): map<EdgeId, Child>
    requires e in s.edges
  {
    s.edges[e := s.edges[e].(target := t)]
  }

  /** bdrv_child_cb_detach and leaving the parents list. */
  function Detach(s: Shape, e: EdgeId): Shape
    requires e in s.edges
  {
    s.(edges := SetTarget(s, e, None),
       links := if Registered(s.edges[e]) then s.links - {Key(s.edges[e])} else s.links)
  }

  /** Entering the parents list of t and bdrv_child_cb_attach. */
  function Attach(s: Shape, e: EdgeId, t: Node): Shape
    requires e in s.edges
  {
    s.(edges := SetTarget(s, e, Some(t)),
       links := if Registered(s.edges[e]) then s.links[Key(s.edges[e]) := e] else s.links)
  }

  /** bdrv_replace_child_noperm, which asserts that the target is another one. */
  function Retarget(s: Shape, e: EdgeId, t: Option<Node>): Shape
    requires e in s.edges && s.edges[e].target != t
  {
    var detached := if Attached(s, e) then Detach(s, e) else s;
    if t.Some? then Attach(detached, e, t.value) else detached
  }

  lemma DetachKeeps(s: Shape, e: EdgeId)
    requires Wf(s) && Attached(s, e)
    ensures Wf(Detach(s, e)) && SlotFree(Detach(s, e), e)
    ensures Attach(Detach(s, e), e, s.edges[e].target.value) == s
  {
  }

  lemma AttachKeeps(s: Shape, e: EdgeId, t: Node)
    requires Wf(s) && e in s.edges && s.edges[e].target == None && SlotFree(s, e) && t in s.inherits
    ensures Wf(Attach(s, e, t)) && Attached(Attach(s, e, t), e)
    ensures Detach(Attach(s, e, t), e) == s
  {
  }

  /** Retargeting keeps the links in order, and retargeting back undoes it. */
  lemma RetargetBack(s: Shape, e: EdgeId, t: Option<Node>)
    requires Wf(s) && e in s.edges && s.edges[e].target != t
    requires s.edges[e].target.None? ==> SlotFree(s, e)
    requires t.Some? ==> t.value in s.inherits
    ensures var r := Retarget(s, e, t);
            && Wf(r) && r.edges == SetTarget(s, e, t) && r.inherits == s.inherits
            && r.edges[e].target != s.edges[e].target && Retarget(r, e, s.edges[e].target) == s
            && (t.None? ==> SlotFree(r, e))
  {
    var old' := s.edges[e].target;
    var detached := if old'.Some? then Detach(s, e) else s;
    if old'.Some? {
      DetachKeeps(s, e);
    }
    if t.Some? {
      AttachKeeps(detached, e, t.value);
    }
    assert Retarget(s, e, t).edges == SetTarget(s, e, t);
  }

  // ------------------------------------------------------------ the undo log

  datatype Action =
    | Replaced(edge: EdgeId, old': Option<Node>)       // bdrv_replace_child_drv; holds the reference of old
    | Added(edge: EdgeId)                              // bdrv_attach_child_common_drv
    | Removed(edge: EdgeId)                            // bdrv_remove_child_drv
    | PermSet(edge: EdgeId, oldPerms: Perms)           // bdrv_child_set_pem_drv
    | InheritsSet(node: Node, oldFrom: Option<Node>)   // bdrv_set_inherits_from_drv

  /** What the abort callback of an action does to the shape. */
  function UndoOne(s: Shape, a: Action): Shape {
    match a
    case Replaced(e, old') => if e in s.edges && s.edges[e].target != old' then Retarget(s, e, old') else s
    case Added(e) =>
      if Attached(s, e) then var d := Retarget(s, e, None); d.(edges := d.edges - {e}) else s
    case Removed(_) => s
    case PermSet(e, p) => if e in s.edges then s.(edges := s.edges[e := s.edges[e].(perms := p)]) else s
    case InheritsSet(n, from) => s.(inherits := s.inherits[n := from])
  }

  /** Undoes the logged actions, the latest first. */
  function Undo(s: Shape, log: seq<Action>): Shape
    decreases log
  {
    if log == [] then s else Undo(UndoOne(s, log[|log| - 1]), log[..|log| - 1])
  }

  /** The state an action leaves behind, as its abort callback expects to find it. */
  predicate Legal(s: Shape, a: Action) {
    match a
    case Replaced(e, old') =>
      && e in s.edges && s.edges[e].target != old' && (s.edges[e].target.None? ==> SlotFree(s, e))
      && (old'.Some? ==> old'.value in s.inherits)
    case Added(e) => Attached(s, e)
    case Removed(e) => e in s.edges && s.edges[e].target.None?
    case PermSet(e, _) => e in s.edges
    case InheritsSet(n, _) => n in s.inherits
  }

  /** Every action of the log is legal once the later ones are undone. */
  ghost predicate LogOk(s: Shape, log: seq<Action>)
    decreases log
  {
    Wf(s) && (log == [] || (Legal(s, log[|log| - 1]) && LogOk(UndoOne(s, log[|log| - 1]), log[..|log| - 1])))
  }

  /** An edit whose undo gives back s extends a log of s. */
  lemma Logged(s: Shape, log: seq<Action>, r: Shape, a: Action)
    requires LogOk(s, log) && Wf(r) && Legal(r, a) && UndoOne(r, a) == s
    ensures LogOk(r, log + [a]) && Undo(r, log + [a]) == Undo(s, log)
  {
  }

  // ------------------------------------------------------------ who holds references

  function Pointing(s: Shape, n: Node): set<EdgeId> {
    set e | e in s.edges && s.edges[e].target == Some(n)
  }

  /** References to n that logged replacements keep for a possible abort. */
  function Held(log: seq<Action>, n: Node): nat {
    if log == [] then 0
    else
      var last := log[|log| - 1];
      (if last.Replaced? && last.old' == Some(n) then 1 else 0) + Held(log[..|log| - 1], n)
  }

  lemma PointingRetarget(s: Shape, e: EdgeId, t: Option<Node>, r: Shape, n: Node)
    requires e in s.edges && r.edges == SetTarget(s, e, t)
    ensures |Pointing(r, n)| == |Pointing(s, n)| - One(s.edges[e].target == Some(n)) + One(t == Some(n))
  {
    if t == Some(n) {
      assert Pointing(r, n) == Pointing(s, n) + {e};
    } else {
      assert Pointing(r, n) == Pointing(s, n) - {e};
    }
  }

  lemma PointingAdd(s: Shape, e: EdgeId, c: Child, r: Shape, n: Node)
    requires e !in s.edges && r.edges == s.edges[e := c]
    ensures |Pointing(r, n)| == |Pointing(s, n)| + One(c.target == Some(n))
  {
    if c.target == Some(n) {
      assert Pointing(r, n) == Pointing(s, n) + {e};
    } else {
      assert Pointing(r, n) == Pointing(s, n);
    }
  }

  lemma PointingSame(s: Shape, r: Shape, n: Node)
    requires s.edges.Keys == r.edges.Keys && forall e :: e in s.edges ==> s.edges[e].target == r.edges[e].target
    ensures Pointing(s, n) == Pointing(r, n)
  {
  }

  lemma HeldAppend(log: seq<Action>, a: Action, n: Node)
    ensures Held(log + [a], n) == Held(log, n) + One(a.Replaced? && a.old' == Some(n))
  {
  }

  // ------------------------------------------------------------ the whole state

  /** The graph with its open transaction, refcounts and the unrefs queued by bdrv_schedule_unref. */
  datatype State = State(
    shape: Shape,
    log: seq<Action>,
    refcnt: map<Node, int>,
    scheduled: multiset<Node>,
    next: EdgeId)

  /** The shape an abort has to restore. */
  function Undone(st: State): Shape {
    Undo(st.shape, st.log)
  }

  /** The references to n that somebody accounts for; callers has those owned outside the graph. */
  ghost function Owed(st: State, callers: map<Node, nat>, n: Node): int {
    |Pointing(st.shape, n)| + Held(st.log, n) + st.scheduled[n] + (if n in callers then callers[n] else 0)
  }

  ghost predicate Balanced(st: State, callers: map<Node, nat>) {
    && st.refcnt.Keys == st.shape.inherits.Keys
    && forall n :: n in st.refcnt ==> st.refcnt[n] == Owed(st, callers, n)
  }

  /** The log can be undone, every reference is accounted for, and next is a fresh edge. */
  ghost predicate Good(st: State, callers: map<Node, nat>) {
    LogOk(st.shape, st.log) && Balanced(st, callers) && forall e :: e in st.shape.edges ==> e < st.next
  }

  /** bdrv_ref and bdrv_unref of a node that may be NULL. */
  function AddRef(refcnt: map<Node, int>, n: Option<Node>, d: int): map<Node, int> {
    if n.Some? && n.value in refcnt then refcnt[n.value := refcnt[n.value] + d] else refcnt
  }

  function Schedule(scheduled: multiset<Node>, n: Option<Node>): multiset<Node> {
    if n.Some? then scheduled + multiset{n.value} else scheduled
  }

  // ------------------------------------------------------------ edits

  /** bdrv_replace_child_tran; it asserts that the edge is not frozen. */
  function ReplaceChild(st: State, e: EdgeId, t: Option<Node>, ghost frozen: set<EdgeId>): State
    requires e in st.shape.edges && e !in frozen && st.shape.edges[e].target != t
  {
    st.(shape := Retarget(st.shape, e, t), log := st.log + [Replaced(e, st.shape.edges[e].target)],
        refcnt := AddRef(st.refcnt, t, 1))
  }

  /** bdrv_attach_child_common, once the AioContexts agree. */
  function AttachChild(st: State, owner: Option<Node>, slot: Slot, t: Node, perms: Perms): State {
    var blank := st.shape.(edges := st.shape.edges[st.next := Child(owner, slot, None, perms)]);
    st.(shape := Attach(blank, st.next, t), log := st.log + [Added(st.next)],
        refcnt := AddRef(st.refcnt, Some(t), 1), next := st.next + 1)
  }

  /** bdrv_remove_child, of an edge that is already empty. */
  function MarkRemoved(st: State, e: EdgeId): State {
    st.(log := st.log + [Removed(e)])
  }

  /** bdrv_child_set_perm */
  function SetPerm(st: State, e: EdgeId, p: Perms): State
    requires e in st.shape.edges
  {
    st.(shape := st.shape.(edges := st.shape.edges[e := st.shape.edges[e].(perms := p)]),
        log := st.log + [PermSet(e, st.shape.edges[e].perms)])
  }

  /** bdrv_set_inherits_from */
  function SetInheritsFrom(st: State, n: Node, from: Option<Node>): State
    requires n in st.shape.inherits
  {
    st.(shape := st.shape.(inherits := st.shape.inherits[n := from]),
        log := st.log + [InheritsSet(n, st.shape.inherits[n])])
  }

  /** An edit keeps the state good and takes nothing from what an abort restores. */
  ghost predicate Keeps(st: State, r: State, callers: map<Node, nat>) {
    Good(r, callers) && Undone(r) == Undone(st)
  }

  /** A replacement: the edge's reference moves to the log, and the new target gets one. */
  lemma ReplaceBalances(st: State, r: State, e: EdgeId, t: Option<Node>, callers: map<Node, nat>)
    requires Balanced(st, callers) && e in st.shape.edges && (t.Some? ==> t.value in st.shape.inherits)
    requires r.shape.edges == SetTarget(st.shape, e, t) && r.shape.inherits == st.shape.inherits
    requires r.log == st.log + [Replaced(e, st.shape.edges[e].target)]
    requires r.refcnt == AddRef(st.refcnt, t, 1) && r.scheduled == st.scheduled
    ensures Balanced(r, callers)
  {
    forall n | n in r.refcnt ensures r.refcnt[n] == Owed(r, callers, n) {
      PointingRetarget(st.shape, e, t, r.shape, n);
      HeldAppend(st.log, Replaced(e, st.shape.edges[e].target), n);
    }
  }

  /** Its abort: the old target's reference moves back, the new one's is dropped. */
  lemma UnreplaceBalances(st: State, r: State, e: EdgeId, old': Option<Node>, callers: map<Node, nat>)
    requires Balanced(st, callers) && e in st.shape.edges
    requires var t := st.shape.edges[e].target; t.Some? ==> t.value in st.shape.inherits
    requires r.shape.edges == SetTarget(st.shape, e, old') && r.shape.inherits == st.shape.inherits
    requires st.log == r.log + [Replaced(e, old')]
    requires r.refcnt == AddRef(st.refcnt, st.shape.edges[e].target, -1) && r.scheduled == st.scheduled
    ensures Balanced(r, callers)
    ensures var t := st.shape.edges[e].target; t.Some? ==> st.refcnt[t.value] > 0
  {
    forall n | n in st.refcnt
      ensures r.refcnt[n] == Owed(r, callers, n)
      ensures st.shape.edges[e].target == Some(n) ==> st.refcnt[n] > 0
    {
      PointingRetarget(st.shape, e, old', r.shape, n);
      HeldAppend(r.log, Replaced(e, old'), n);
    }
  }

  /** An attachment: the new edge has a reference of its own. */
  lemma AddBalances(st: State, r: State, e: EdgeId, c: Child, callers: map<Node, nat>)
    requires Balanced(st, callers) && e !in st.shape.edges && (c.target.Some? ==> c.target.value in st.shape.inherits)
    requires r.shape.edges == st.shape.edges[e := c] && r.shape.inherits == st.shape.inherits
    requires r.log == st.log + [Added(e)]
    requires r.refcnt == AddRef(st.refcnt, c.target, 1) && r.scheduled == st.scheduled
    ensures Balanced(r, callers)
  {
    forall n | n in r.refcnt ensures r.refcnt[n] == Owed(r, callers, n) {
      PointingAdd(st.shape, e, c, r.shape, n);
      HeldAppend(st.log, Added(e), n);
    }
  }

  /** Its abort: the edge's reference becomes a scheduled unref. */
  lemma UnaddBalances(st: State, r: State, e: EdgeId, callers: map<Node, nat>)
    requires Balanced(st, callers) && e in st.shape.edges
    requires r.shape.edges == st.shape.edges - {e} && r.shape.inherits == st.shape.inherits
    requires st.log == r.log + [Added(e)]
    requires r.refcnt == st.refcnt && r.scheduled == Schedule(st.scheduled, st.shape.edges[e].target)
    ensures Balanced(r, callers)
  {
    var c := st.shape.edges[e];
    assert st.shape.edges == r.shape.edges[e := c];
    forall n | n in r.refcnt ensures r.refcnt[n] == Owed(r, callers, n) {
      PointingAdd(r.shape, e, c, st.shape, n);
      HeldAppend(r.log, Added(e), n);
    }
  }

  lemma ReplaceChildKeeps(st: State, e: EdgeId, t: Option<Node>, callers: map<Node, nat>, frozen: set<EdgeId>)
    requires Good(st, callers) && e in st.shape.edges && e !in frozen && st.shape.edges[e].target != t
    requires (st.shape.edges[e].target.None? ==> SlotFree(st.shape, e)) && (t.Some? ==> t.value in st.shape.inherits)
    ensures var r := ReplaceChild(st, e, t, frozen);
            && Keeps(st, r, callers)
            && r.shape.edges == SetTarget(st.shape, e, t) && r.shape.inherits == st.shape.inherits
            && (t.None? ==> SlotFree(r.shape, e))
  {
    var a, r := Replaced(e, st.shape.edges[e].target), ReplaceChild(st, e, t, frozen);
    RetargetBack(st.shape, e, t);
    Logged(st.shape, st.log, r.shape, a);
    ReplaceBalances(st, r, e, t, callers);
  }

  lemma AttachChildKeeps(st: State, owner: Option<Node>, slot: Slot, t: Node, perms: Perms, callers: map<Node, nat>)
    requires Good(st, callers) && t in st.shape.inherits
    requires owner.Some? ==> owner.value in st.shape.inherits && (owner.value, slot) !in st.shape.links
    ensures var r := AttachChild(st, owner, slot, t, perms);
            && Keeps(st, r, callers) && st.next !in st.shape.edges
            && r.shape.edges == st.shape.edges[st.next := Child(owner, slot, Some(t), perms)]
            && r.shape.inherits == st.shape.inherits
  {
    var r, c := AttachChild(st, owner, slot, t, perms), Child(owner, slot, Some(t), perms);
    AttachFresh(st.shape, st.next, owner, slot, t, perms);
    AttachedKeeps(st, r, c, callers);
  }

  lemma AttachedKeeps(st: State, r: State, c: Child, callers: map<Node, nat>)
    requires Good(st, callers) && st.next !in st.shape.edges && c.target.Some? && c.target.value in st.shape.inherits
    requires Wf(r.shape) && Legal(r.shape, Added(st.next)) && UndoOne(r.shape, Added(st.next)) == st.shape
    requires r.shape.edges == st.shape.edges[st.next := c] && r.shape.inherits == st.shape.inherits
    requires r == st.(shape := r.shape, log := st.log + [Added(st.next)], refcnt := AddRef(st.refcnt, c.target, 1),
                      next := st.next + 1)
    ensures Keeps(st, r, callers)
  {
    Logged(st.shape, st.log, r.shape, Added(st.next));
    AddBalances(st, r, st.next, c, callers);
  }

  lemma AttachFresh(s: Shape, e: EdgeId, owner: Option<Node>, slot: Slot, t: Node, perms: Perms)
    requires Wf(s) && e !in s.edges && t in s.inherits
    requires owner.Some? ==> owner.value in s.inherits && (owner.value, slot) !in s.links
    ensures var r := Attach(s.(edges := s.edges[e := Child(owner, slot, None, perms)]), e, t);
            && Wf(r) && r.edges == s.edges[e := Child(owner, slot, Some(t), perms)]
            && Legal(r, Added(e)) && UndoOne(r, Added(e)) == s
  {
    var blank := s.(edges := s.edges[e := Child(owner, slot, None, perms)]);
    AttachKeeps(blank, e, t);
    assert blank.edges - {e} == s.edges;
  }

  /** An edit that leaves every edge where it is. */
  lemma InPlaceKeeps(st: State, r: State, a: Action, callers: map<Node, nat>)
    requires Good(st, callers) && !a.Replaced? && Legal(r.shape, a) && UndoOne(r.shape, a) == st.shape && Wf(r.shape)
    requires r == st.(shape := r.shape, log := st.log + [a])
    requires st.shape.inherits.Keys == r.shape.inherits.Keys && st.shape.edges.Keys == r.shape.edges.Keys
    requires forall e :: e in st.shape.edges ==> st.shape.edges[e].target == r.shape.edges[e].target
    ensures Keeps(st, r, callers)
  {
    Logged(st.shape, st.log, r.shape, a);
    InPlaceBalances(st, r, a, callers);
  }

  lemma MarkRemovedKeeps(st: State, e: EdgeId, callers: map<Node, nat>)
    requires Good(st, callers) && e in st.shape.edges && st.shape.edges[e].target.None?
    ensures Keeps(st, MarkRemoved(st, e), callers)
  {
  }

  lemma SetPermKeeps(st: State, e: EdgeId, p: Perms, callers: map<Node, nat>)
    requires Good(st, callers) && e in st.shape.edges
    ensures Keeps(st, SetPerm(st, e, p), callers)
  {
    var r, a := SetPerm(st, e, p), PermSet(e, st.shape.edges[e].perms);
    assert UndoOne(r.shape, a).edges == st.shape.edges;
    PermsKeepWf(st.shape, e, p);
    InPlaceKeeps(st, r, a, callers);
  }

  lemma PermsKeepWf(s: Shape, e: EdgeId, p: Perms)
    requires Wf(s) && e in s.edges
    ensures Wf(s.(edges := s.edges[e := s.edges[e].(perms := p)]))
  {
  }

  lemma SetInheritsFromKeeps(st: State, n: Node, from: Option<Node>, callers: map<Node, nat>)
    requires Good(st, callers) && n in st.shape.inherits
    ensures Keeps(st, SetInheritsFrom(st, n, from), callers)
  {
    var r, a := SetInheritsFrom(st, n, from), InheritsSet(n, st.shape.inherits[n]);
    InheritsKeepWf(st.shape, n, from);
    InheritsBack(st.shape, n, from);
    InPlaceKeeps(st, r, a, callers);
  }

  lemma InheritsBack(s: Shape, n: Node, from: Option<Node>)
    requires n in s.inherits
    ensures var r := s.(inherits := s.inherits[n := from]);
            UndoOne(r, InheritsSet(n, s.inherits[n])) == s && r.inherits.Keys == s.inherits.Keys && n in r.inherits
  {
    assert s.inherits[n := from][n := s.inherits[n]] == s.inherits;
  }

  lemma InheritsKeepWf(s: Shape, n: Node, from: Option<Node>)
    requires Wf(s) && n in s.inherits
    ensures Wf(s.(inherits := s.inherits[n := from]))
  {
    assert forall x :: Attached(s.(inherits := s.inherits[n := from]), x) <==> Attached(s, x);
  }

  // ------------------------------------------------------------ abort and commit

  /** The action's abort callback calls bdrv_replace_child_noperm for this edge. */
  predicate Retargets(a: Action, e: EdgeId) {
    (a.Replaced? || a.Added?) && a.edge == e
  }

  /** No logged action has to put back, or take away, a frozen edge. */
  ghost predicate Thawed(log: seq<Action>, frozen: set<EdgeId>) {
    forall a, e :: a in log && e in frozen ==> !Retargets(a, e)
  }

  /** The abort callback of the latest action; the edge it retargets must not be frozen. */
  function AbortLast(st: State, ghost frozen: set<EdgeId>): State
    requires st.log != [] && Thawed(st.log, frozen)
  {
    var a, rest := st.log[|st.log| - 1], st.log[..|st.log| - 1];
    var r := st.(shape := UndoOne(st.shape, a), log := rest);
    match a
    case Replaced(e, _) =>
      if e in st.shape.edges then r.(refcnt := AddRef(st.refcnt, st.shape.edges[e].target, -1)) else r
    case Added(e) =>
      if e in st.shape.edges then r.(scheduled := Schedule(st.scheduled, st.shape.edges[e].target)) else r
    case _ => r
  }

  /** The target whose reference an abort callback drops. */
  function Dropped(st: State): Option<Node>
    requires st.log != []
  {
    var a := st.log[|st.log| - 1];
    if a.Replaced? && a.edge in st.shape.edges then st.shape.edges[a.edge].target else None
  }

  lemma AbortReplaced(st: State, rest: seq<Action>, e: EdgeId, old': Option<Node>, r: State, callers: map<Node, nat>)
    requires Good(st, callers) && st.log == rest + [Replaced(e, old')] && e in st.shape.edges
    requires r == st.(shape := UndoOne(st.shape, Replaced(e, old')), log := rest,
                      refcnt := AddRef(st.refcnt, st.shape.edges[e].target, -1))
    ensures Keeps(st, r, callers)
    ensures var t := st.shape.edges[e].target; t.Some? ==> t.value in st.refcnt && st.refcnt[t.value] > 0
  {
    assert st.log[..|rest|] == rest && Legal(st.shape, Replaced(e, old'));
    RetargetBack(st.shape, e, old');
    UnreplaceBalances(st, r, e, old', callers);
  }

  lemma AbortAdded(st: State, rest: seq<Action>, e: EdgeId, r: State, callers: map<Node, nat>)
    requires Good(st, callers) && st.log == rest + [Added(e)] && e in st.shape.edges
    requires r == st.(shape := UndoOne(st.shape, Added(e)), log := rest,
                      scheduled := Schedule(st.scheduled, st.shape.edges[e].target))
    ensures Keeps(st, r, callers)
  {
    assert st.log[..|rest|] == rest && Legal(st.shape, Added(e));
    RetargetBack(st.shape, e, None);
    assert r.shape.edges == st.shape.edges - {e};
    UnaddBalances(st, r, e, callers);
  }

  lemma AbortInPlace(st: State, rest: seq<Action>, a: Action, r: State, callers: map<Node, nat>)
    requires Good(st, callers) && st.log == rest + [a] && !a.Replaced? && !a.Added?
    requires r == st.(shape := UndoOne(st.shape, a), log := rest)
    ensures Keeps(st, r, callers)
  {
    assert st.log[..|rest|] == rest && Legal(st.shape, a);
    InPlaceBalances(r, st, a, callers);
  }

  /** An abort callback keeps the balance; the reference it drops is one the count still has. */
  lemma AbortLastKeeps(st: State, callers: map<Node, nat>, frozen: set<EdgeId>)
    requires Good(st, callers) && st.log != [] && Thawed(st.log, frozen)
    ensures Keeps(st, AbortLast(st, frozen), callers) && Thawed(AbortLast(st, frozen).log, frozen)
    ensures Dropped(st).Some? ==> Dropped(st).value in st.refcnt && st.refcnt[Dropped(st).value] > 0
  {
    var a, rest, r := st.log[|st.log| - 1], st.log[..|st.log| - 1], AbortLast(st, frozen);
    assert st.log == rest + [a] && Legal(st.shape, a);
    match a {
      case Replaced(e, old') => AbortReplaced(st, rest, e, old', r, callers);
      case Added(e) => AbortAdded(st, rest, e, r, callers);
      case _ => AbortInPlace(st, rest, a, r, callers);
    }
  }

  lemma InPlaceBalances(st: State, r: State, a: Action, callers: map<Node, nat>)
    requires !a.Replaced? && r.log == st.log + [a] && r.refcnt == st.refcnt && r.scheduled == st.scheduled
    requires st.shape.inherits.Keys == r.shape.inherits.Keys && st.shape.edges.Keys == r.shape.edges.Keys
    requires forall e :: e in st.shape.edges ==> st.shape.edges[e].target == r.shape.edges[e].target
    ensures Balanced(st, callers) <==> Balanced(r, callers)
  {
    forall n ensures Owed(st, callers, n) == Owed(r, callers, n) {
      PointingSame(st.shape, r.shape, n);
      HeldAppend(st.log, a, n);
    }
  }

  /** The edges the log removes are empty, and none is removed twice. */
  ghost predicate RemovedOk(st: State) {
    && (forall e :: Removed(e) in st.log ==> e in st.shape.edges && st.shape.edges[e].target.None?)
    && (forall i, j :: 0 <= i < j < |st.log| && st.log[i].Removed? && st.log[j].Removed? ==> st.log[i] != st.log[j])
  }

  /** The commit callback of the latest action. */
  function CommitLast(st: State): State
    requires st.log != []
  {
    var a, r := st.log[|st.log| - 1], st.(log := st.log[..|st.log| - 1]);
    match a
    case Replaced(_, old') => r.(scheduled := Schedule(st.scheduled, old'))
    case Removed(e) => r.(shape := st.shape.(edges := st.shape.edges - {e}))
    case _ => r
  }

  /** What holds while commit callbacks run: the log is no longer for undoing. */
  ghost predicate Committing(st: State, callers: map<Node, nat>) {
    Wf(st.shape) && Balanced(st, callers) && RemovedOk(st) && forall e :: e in st.shape.edges ==> e < st.next
  }

  /** A commit callback keeps the balance, and bdrv_child_free only gets empty edges. */
  lemma CommitLastKeeps(st: State, callers: map<Node, nat>)
    requires Committing(st, callers) && st.log != []
    ensures Committing(CommitLast(st), callers)
    ensures forall e :: Attached(st.shape, e) ==> e in CommitLast(st).shape.edges
  {
    var a := st.log[|st.log| - 1];
    if a.Removed? {
      assert a in st.log;
      FreeKeepsWf(st.shape, a.edge);
    }
    CommitBalances(st, callers);
    CommitKeepsRemoved(st);
  }

  lemma CommitBalances(st: State, callers: map<Node, nat>)
    requires Balanced(st, callers) && RemovedOk(st) && st.log != []
    ensures Balanced(CommitLast(st), callers)
  {
    var a, rest, r := st.log[|st.log| - 1], st.log[..|st.log| - 1], CommitLast(st);
    assert st.log == rest + [a];
    forall n | n in r.refcnt ensures r.refcnt[n] == Owed(r, callers, n) {
      HeldAppend(rest, a, n);
      if a.Removed? {
        assert a in st.log;
        assert Pointing(r.shape, n) == Pointing(st.shape, n);
      }
    }
  }

  lemma CommitKeepsRemoved(st: State)
    requires RemovedOk(st) && st.log != []
    ensures RemovedOk(CommitLast(st))
  {
  }

  lemma FreeKeepsWf(s: Shape, e: EdgeId)
    requires Wf(s) && e in s.edges && s.edges[e].target.None?
    ensures Wf(s.(edges := s.edges - {e}))
  {
  }

  /** bdrv_schedule_unref_bh: a queued unref runs. */
  function RunUnref(st: State, n: Node): State {
    st.(refcnt := AddRef(st.refcnt, Some(n), -1), scheduled := st.scheduled - multiset{n})
  }

  lemma RunUnrefKeeps(st: State, n: Node, callers: map<Node, nat>)
    requires Good(st, callers) && n in st.refcnt && n in st.scheduled
    ensures Keeps(st, RunUnref(st, n), callers) && st.refcnt[n] > 0
  {
  }

  /** bdrv_ref by a caller. */
  function TakeRef(st: State, n: Node): State {
    st.(refcnt := AddRef(st.refcnt, Some(n), 1))
  }

  function Taken(callers: map<Node, nat>, n: Node): map<Node, nat> {
    callers[n := (if n in callers then callers[n] else 0) + 1]
  }

  lemma TakeRefKeeps(st: State, n: Node, callers: map<Node, nat>)
    requires Good(st, callers) && n in st.refcnt
    ensures Good(TakeRef(st, n), Taken(callers, n))
  {
  }

  /** bdrv_schedule_unref of a reference that a caller has handed over. */
  function GiveUp(st: State, n: Node): State {
    st.(scheduled := Schedule(st.scheduled, Some(n)))
  }

  /** The references of the callers when one has been handed over. */
  function GivenUp(callers: map<Node, nat>, n: Node): map<Node, nat>
    requires n in callers && callers[n] > 0
  {
    callers[n := callers[n] - 1]
  }

  lemma GiveUpKeeps(st: State, n: Node, callers: map<Node, nat>)
    requires Good(st, callers) && n in callers && callers[n] > 0
    ensures Good(GiveUp(st, n), GivenUp(callers, n))
  {
  }

  /** A node whose last reference goes away, which bdrv_unref deletes, is one nothing refers to. */
  lemma DeletedIsUnused(st: State, n: Node, callers: map<Node, nat>)
    requires Good(st, callers) && n in st.refcnt && st.refcnt[n] == 0
    ensures (forall e :: e in st.shape.edges ==> st.shape.edges[e].target != Some(n)) && n !in st.scheduled
    ensures Held(st.log, n) == 0 && (n in callers ==> callers[n] == 0)
  {
    assert |Pointing(st.shape, n)| == 0;
    forall e | e in st.shape.edges ensures st.shape.edges[e].target != Some(n) {
      assert e !in Pointing(st.shape, n);
    }
  }
}
