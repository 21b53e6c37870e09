/**
 Chains of COW and filter links from a node down to a base, which can be frozen so that no
 graph change touches them.
 */
module BackingChains {
  import opened Options
  import opened Sequences
  import opened Digraph
  import opened GraphEdits
  import opened GraphOperations

  /** bdrv_filter_or_cow_child: bs->backing, or bs->file of a filter. */
  function ChainLink(s: Shape, drv: Node -> Driver, n: Node): Option<EdgeId> {
    if (n, BackingLink) in s.links then Some(s.links[(n, BackingLink)])
    else if drv(n).isFilter && (n, FileLink) in s.links then Some(s.links[(n, FileLink)])
    else None
  }

  /** The links met on the way from n down to base, or to the end of the chain when there is no base. */
  ghost predicate IsChain(s: Shape, drv: Node -> Driver, n: Node, base: Option<Node>, links: seq<EdgeId>)
    decreases |links|
  {
    var next := ChainLink(s, drv, n);
    if links == [] then base == Some(n) || (base.None? && next.None?)
    else base != Some(n) && next == Some(links[0]) && Attached(s, links[0])
         && IsChain(s, drv, s.edges[links[0]].target.value, base, links[1..])
  }

  lemma {:induction false} OneChain(s: Shape, drv: Node -> Driver, n: Node, base: Option<Node>, a: seq<EdgeId>,
                                    b: seq<EdgeId>)
    requires IsChain(s, drv, n, base, a) && IsChain(s, drv, n, base, b)
    ensures a == b
    decreases |a|
  {
    if a != [] && b != [] {
      OneChain(s, drv, s.edges[a[0]].target.value, base, a[1..], b[1..]);
      assert a == [a[0]] + a[1..] && b == [b[0]] + b[1..];
    }
  }

  /** The rest of a chain after one of its links is a chain from where that link leads. */
  lemma {:induction false} ChainAfter(s: Shape, drv: Node -> Driver, n: Node, base: Option<Node>, links: seq<EdgeId>,
                                      k: nat)
    requires IsChain(s, drv, n, base, links) && k < |links|
    ensures Attached(s, links[k]) && IsChain(s, drv, s.edges[links[k]].target.value, base, links[k + 1..])
    decreases k
  {
    if k > 0 {
      ChainAfter(s, drv, s.edges[links[0]].target.value, base, links[1..], k - 1);
      assert links[1..][k..] == links[k + 1..];
    }
  }

  /** No link is met twice. */
  lemma ChainIsDistinct(s: Shape, drv: Node -> Driver, n: Node, base: Option<Node>, links: seq<EdgeId>)
    requires IsChain(s, drv, n, base, links)
    ensures Distinct(links)
  {
    forall i, j | 0 <= i < j < |links| ensures links[i] != links[j] {
      ChainAfter(s, drv, n, base, links, i);
      ChainAfter(s, drv, n, base, links, j);
      if links[i] == links[j] {
        OneChain(s, drv, s.edges[links[i]].target.value, base, links[i + 1..], links[j + 1..]);
      }
    }
  }

  /** Where the links lead from n. */
  function LastNode(s: Shape, n: Node, links: seq<EdgeId>): Node
    decreases |links|
  {
    if links == [] || !Attached(s, links[0]) then n else LastNode(s, s.edges[links[0]].target.value, links[1..])
  }

  lemma {:induction false} ChainEnds(s: Shape, drv: Node -> Driver, n: Node, links: seq<EdgeId>)
    requires IsChain(s, drv, n, None, links)
    ensures ChainLink(s, drv, LastNode(s, n, links)).None?
    decreases |links|
  {
    if links != [] {
      ChainEnds(s, drv, s.edges[links[0]].target.value, links[1..]);
    }
  }

  /** A filter has one of the two links, for its only filtered child. */
  ghost predicate FiltersOk(s: Shape, drv: Node -> Driver) {
    forall e :: Attached(s, e) && Registered(s.edges[e]) && drv(s.edges[e].owner.value).isFilter ==>
                  s.edges[e].slot == BackingSlot(drv(s.edges[e].owner.value))
  }

  /** A frozen link is still the one the walk takes. */
  lemma LinkStays(s: Shape, r: Shape, drv: Node -> Driver, frozen: set<EdgeId>, n: Node)
    requires LinksOk(s) && LinksOk(r) && FiltersOk(r, drv) && FrozenKept(s, r, frozen)
    requires ChainLink(s, drv, n).Some? && ChainLink(s, drv, n).value in frozen
    ensures ChainLink(r, drv, n) == ChainLink(s, drv, n)
    ensures var e := ChainLink(s, drv, n).value;
            Attached(s, e) && Attached(r, e) && r.edges[e].target == s.edges[e].target
  {
    var e := ChainLink(s, drv, n).value;
    assert Attached(r, e) && r.edges[e].owner == Some(n) && r.edges[e].slot == s.edges[e].slot;
    assert (n, r.edges[e].slot) in r.links && r.links[(n, r.edges[e].slot)] == e;
  }

  /** A link that was not there when the others were frozen is not frozen. */
  lemma NewLinkIsThawed(s: Shape, r: Shape, drv: Node -> Driver, frozen: set<EdgeId>, n: Node)
    requires LinksOk(s) && LinksOk(r) && FrozenKept(s, r, frozen) && forall e :: e in frozen ==> e in s.edges
    requires ChainLink(s, drv, n).None? && ChainLink(r, drv, n).Some?
    ensures ChainLink(r, drv, n).value !in frozen
  {
    var e := ChainLink(r, drv, n).value;
    assert Attached(r, e) && Registered(r.edges[e]) && r.edges[e].owner == Some(n);
    assert Attached(s, e) && Registered(s.edges[e]) ==>
             s.edges[e].owner != Some(n) || s.edges[e].slot != r.edges[e].slot;
  }

  /**
   As long as a chain down to a base is frozen, it is the chain from its top to that base.  A chain that
   goes down to where there is no further link stays complete exactly as long as there is none.
   */
  lemma {:induction false} FrozenChainIsChain(s: Shape, r: Shape, drv: Node -> Driver, frozen: set<EdgeId>, n: Node,
                                              base: Option<Node>, links: seq<EdgeId>)
    requires LinksOk(s) && LinksOk(r) && FiltersOk(r, drv) && FrozenKept(s, r, frozen)
    requires IsChain(s, drv, n, base, links) && forall e :: e in links ==> e in frozen
    ensures IsChain(r, drv, n, base, links) <==> base.Some? || ChainLink(r, drv, LastNode(s, n, links)).None?
    decreases |links|
  {
    if links != [] {
      assert links[0] in links;
      LinkStays(s, r, drv, frozen, n);
      FrozenChainIsChain(s, r, drv, frozen, s.edges[links[0]].target.value, base, links[1..]);
    }
  }
}
