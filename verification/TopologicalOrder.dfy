/**
 bdrv_topological_dfs: the depth-first search that lists a subgraph with every parent
 before its children, called once per root with a shared table of found nodes.
 */
module TopologicalOrder {
  import opened Digraph
  import opened Sequences

  /** The children lists of the nodes, as child->bs in list order. */
  type Children = map<Node, seq<Node>>

  ghost function Arrows(children: Children): Digraph {
    map u | u in children :: set v | v in children[u]
  }

  /** Every arrow out of a listed node ends further down the list. */
  ghost predicate ParentsFirst(d: Digraph, list: seq<Node>) {
    forall i, v :: 0 <= i < |list| && Arrow(d, list[i], v) ==> v in list[i + 1..]
  }

  /** A list without repetitions, closed under children, parents before children. */
  ghost predicate Sorted(d: Digraph, list: seq<Node>) {
    Distinct(list) && ParentsFirst(d, list)
  }

  ghost predicate IsSuffix(old': seq<Node>, list: seq<Node>) {
    |old'| <= |list| && list[|list| - |old'|..] == old'
  }

  lemma SortedIsClosed(d: Digraph, list: seq<Node>, u: Node, v: Node)
    requires ParentsFirst(d, list) && u in list && Reach(d, u, v)
    ensures v in list
  {
    forall x, y | x in Elements(list) && Arrow(d, x, y) ensures y in Elements(list) {
      var i :| 0 <= i < |list| && list[i] == x;
      assert y in list[i + 1..];
    }
    ReachStaysIn(d, u, v, Elements(list));
  }

  lemma PrependSorted(d: Digraph, bs: Node, list: seq<Node>)
    requires Sorted(d, list) && bs !in list
    requires forall v :: Arrow(d, bs, v) ==> v in list
    ensures Sorted(d, [bs] + list)
  {
    var r := [bs] + list;
    forall i, v | 0 <= i < |r| && Arrow(d, r[i], v) ensures v in r[i + 1..] {
      if i == 0 {
        assert r[1..] == list;
      } else {
        assert r[i + 1..] == list[i - 1 + 1..];
        assert Arrow(d, list[i - 1], v);
      }
    }
  }

  /** A node that is found but not listed is still being visited: it is strictly above bs. */
  ghost predicate Searchable(d: Digraph, list: seq<Node>, found: set<Node>, bs: Node) {
    && Closed(d) && Acyclic(d) && Sorted(d, list) && bs in d && found <= d.Keys && Elements(list) <= found
    && forall v :: v in found && v !in list ==> v != bs && Reach(d, v, bs)
  }

  /** The nodes below bs that were not listed yet have been added in front of the list. */
  ghost predicate Searched(d: Digraph, list: seq<Node>, found: set<Node>, bs: Node, list': seq<Node>,
                           found': set<Node>) {
    && Sorted(d, list') && IsSuffix(list, list')
    && Elements(list') == Elements(list) + Below(d, bs) && found' == found + Elements(list')
  }

  method TopologicalDfs(children: Children, list: seq<Node>, found: set<Node>, bs: Node)
    returns (list': seq<Node>, found': set<Node>)
    requires Searchable(Arrows(children), list, found, bs)
    ensures Searched(Arrows(children), list, found, bs, list', found')
    decreases children.Keys - found
  {
    ghost var d := Arrows(children);
    if bs in found {
      AlreadyListed(d, list, found, bs);
      return list, found;
    }
    found' := found + {bs};
    list' := list;
    SearchStarts(d, children[bs], list, found, bs);
    for k := 0 to |children[bs]|
      invariant Searching(d, children[bs], k, list, found, bs, list', found')
    {
      ghost var before, seen := list', found';
      SearchDown(d, children[bs], k, list, found, bs, list', found');
      list', found' := TopologicalDfs(children, list', found', children[bs][k]);
      SearchGoesOn(d, children[bs], k, list, found, bs, before, seen, list', found');
    }
    SearchEnds(d, children[bs], list, found, bs, list', found');
    list' := [bs] + list';
  }

  lemma AlreadyListed(d: Digraph, list: seq<Node>, found: set<Node>, bs: Node)
    requires Searchable(d, list, found, bs) && bs in found
    ensures Searched(d, list, found, bs, list, found)
  {
    forall v | v in Below(d, bs) ensures v in list {
      SortedIsClosed(d, list, bs, v);
    }
  }

  /** Where the loop over the children of bs stands. */
  ghost predicate Searching(d: Digraph, kids: seq<Node>, k: nat, list: seq<Node>, found: set<Node>, bs: Node,
                            list': seq<Node>, found': set<Node>) {
    && Searchable(d, list, found, bs) && bs !in found && (forall v :: Arrow(d, bs, v) <==> v in kids)
    && Sorted(d, list') && IsSuffix(list, list') && found' == found + {bs} + Elements(list') && found' <= d.Keys
    && Visited(d, kids, k, list, list')
  }

  lemma SearchStarts(d: Digraph, kids: seq<Node>, list: seq<Node>, found: set<Node>, bs: Node)
    requires Searchable(d, list, found, bs) && bs !in found && forall v :: Arrow(d, bs, v) <==> v in kids
    ensures Searching(d, kids, 0, list, found, bs, list, found + {bs})
  {
  }

  lemma SearchDown(d: Digraph, kids: seq<Node>, k: nat, list: seq<Node>, found: set<Node>, bs: Node, list': seq<Node>,
                   found': set<Node>)
    requires Searching(d, kids, k, list, found, bs, list', found') && k < |kids|
    ensures Searchable(d, list', found', kids[k])
  {
    assert Arrow(d, bs, kids[k]);
    OnlyAbove(list, found, list', found', bs);
    VisitingIsAbove(d, list', found', bs, kids[k]);
  }

  lemma OnlyAbove(list: seq<Node>, found: set<Node>, list': seq<Node>, found': set<Node>, bs: Node)
    requires IsSuffix(list, list') && found' == found + {bs} + Elements(list')
    ensures forall v :: v in found' && v !in list' ==> v == bs || (v in found && v !in list)
  {
    forall v | v in list ensures v in list' {
      var i :| 0 <= i < |list| && list[i] == v;
      assert list'[|list'| - |list|..][i] == v;
    }
  }

  lemma SearchGoesOn(d: Digraph, kids: seq<Node>, k: nat, list: seq<Node>, found: set<Node>, bs: Node,
                     before: seq<Node>, seen: set<Node>, list': seq<Node>, found': set<Node>)
    requires Searching(d, kids, k, list, found, bs, before, seen) && k < |kids| &&
             Searched(d, before, seen, kids[k], list', found')
    ensures Searching(d, kids, k + 1, list, found, bs, list', found')
  {
    assert Arrow(d, bs, kids[k]);
    SuffixTrans(list, before, list');
    VisitChild(d, kids, k, list, before, list');
  }

  lemma SearchEnds(d: Digraph, kids: seq<Node>, list: seq<Node>, found: set<Node>, bs: Node, list': seq<Node>,
                   found': set<Node>)
    requires Searching(d, kids, |kids|, list, found, bs, list', found')
    ensures Searched(d, list, found, bs, [bs] + list', found')
  {
    forall j | 0 <= j < |kids| ensures Arrow(d, bs, kids[j]) {
      assert kids[j] in kids;
    }
    NotListed(d, kids, list, list', bs);
    ListedBelow(d, kids, list, list', bs);
    forall v | Arrow(d, bs, v) ensures v in list' {
      var j :| 0 <= j < |kids| && kids[j] == v;
    }
    PrependSorted(d, bs, list');
    Prepended(list, list', bs);
  }

  lemma Prepended(list: seq<Node>, list': seq<Node>, bs: Node)
    requires IsSuffix(list, list')
    ensures IsSuffix(list, [bs] + list') && Elements([bs] + list') == {bs} + Elements(list')
  {
    var r := [bs] + list';
    assert r[|r| - |list|..] == list'[|list'| - |list|..];
  }

  /** The first k children are listed, and everything new in the list is below one of them. */
  ghost predicate Visited(d: Digraph, kids: seq<Node>, k: nat, list: seq<Node>, list': seq<Node>) {
    && k <= |kids|
    && (forall v :: v in list' ==> v in list || (exists j :: 0 <= j < k && Reach(d, kids[j], v)))
    && (forall j :: 0 <= j < k ==> kids[j] in list')
  }

  lemma VisitChild(d: Digraph, kids: seq<Node>, k: nat, list: seq<Node>, before: seq<Node>, after: seq<Node>)
    requires k < |kids| && kids[k] in d && Visited(d, kids, k, list, before)
    requires Elements(after) == Elements(before) + Below(d, kids[k])
    ensures Visited(d, kids, k + 1, list, after)
  {
    ReachRefl(d, kids[k]);
    assert kids[k] in Elements(after);
    forall v | v in after && v !in list ensures exists j :: 0 <= j < k + 1 && Reach(d, kids[j], v) {
      assert v in Elements(after);
      if v in Elements(before) {
        assert v in before;
        var j :| 0 <= j < k && Reach(d, kids[j], v);
      }
    }
    forall j | 0 <= j < k ensures kids[j] in after {
      assert kids[j] in Elements(before) && kids[j] in Elements(after);
    }
  }

  lemma SuffixTrans(a: seq<Node>, b: seq<Node>, c: seq<Node>)
    requires IsSuffix(a, b) && IsSuffix(b, c)
    ensures IsSuffix(a, c)
  {
  }

  /** What is being visited while bs is stays strictly above each child of bs. */
  lemma VisitingIsAbove(d: Digraph, list: seq<Node>, found: set<Node>, bs: Node, child: Node)
    requires Acyclic(d) && Arrow(d, bs, child)
    requires forall v :: v in found && v !in list && v != bs ==> Reach(d, v, bs)
    ensures forall v :: v in found && v !in list ==> v != child && Reach(d, v, child)
  {
    ReachArrow(d, bs, child);
    forall v | v in found && v !in list ensures v != child && Reach(d, v, child) {
      ReachRefl(d, bs);
      ReachTrans(d, v, bs, child);
    }
  }

  lemma NotListed(d: Digraph, kids: seq<Node>, list: seq<Node>, list': seq<Node>, bs: Node)
    requires Acyclic(d) && bs !in list
    requires forall j :: 0 <= j < |kids| ==> Arrow(d, bs, kids[j])
    requires Visited(d, kids, |kids|, list, list')
    ensures bs !in list'
  {
  }

  /** Everything strictly below bs is listed, and nothing else was added. */
  lemma ListedBelow(d: Digraph, kids: seq<Node>, list: seq<Node>, list': seq<Node>, bs: Node)
    requires Closed(d) && bs in d && ParentsFirst(d, list') && Elements(list') <= d.Keys
    requires forall v :: Arrow(d, bs, v) <==> v in kids
    requires IsSuffix(list, list') && Visited(d, kids, |kids|, list, list')
    ensures Elements([bs] + list') == Elements(list) + Below(d, bs)
  {
    forall v | v in list' && v !in list ensures Reach(d, bs, v) {
      var j :| 0 <= j < |kids| && Reach(d, kids[j], v);
      ReachArrow(d, bs, kids[j]);
      ReachTrans(d, bs, kids[j], v);
    }
    forall v | v in Below(d, bs) && v != bs ensures v in list' {
      var c := ReachFirst(d, bs, v);
      SortedIsClosed(d, list', c, v);
    }
    ReachRefl(d, bs);
    assert forall v :: v in list ==> v in list' by {
      assert list'[|list'| - |list|..] == list;
      forall v | v in list ensures v in list' {
        var i :| 0 <= i < |list| && list[i] == v;
        assert list'[|list'| - |list| + i] == v;
      }
    }
  }

  /** The nodes below the first k roots are listed. */
  ghost predicate Listed(d: Digraph, roots: seq<Node>, k: nat, list: seq<Node>, found: set<Node>) {
    && Sorted(d, list) && found == Elements(list) && found <= d.Keys && k <= |roots|
    && forall v :: v in list <==> exists i :: 0 <= i < k && v in Below(d, roots[i])
  }

  lemma ListNext(d: Digraph, roots: seq<Node>, k: nat, before: seq<Node>, list: seq<Node>, found: set<Node>)
    requires Listed(d, roots, k, before, Elements(before)) && k < |roots|
    requires Searched(d, before, Elements(before), roots[k], list, found)
    ensures Listed(d, roots, k + 1, list, found)
  {
    forall v ensures v in list <==> exists i :: 0 <= i < k + 1 && v in Below(d, roots[i]) {
      assert v in list <==> v in Elements(list);
      assert v in before <==> v in Elements(before);
    }
  }

  /** The loop of bdrv_list_refresh_perms: one search per root, over one table of found nodes. */
  method ListDfs(children: Children, roots: seq<Node>) returns (list: seq<Node>)
    requires Closed(Arrows(children)) && Acyclic(Arrows(children))
    requires forall r :: r in roots ==> r in children
    ensures Sorted(Arrows(children), list)
    ensures forall v :: v in list <==> exists i :: 0 <= i < |roots| && v in Below(Arrows(children), roots[i])
  {
    ghost var d := Arrows(children);
    var found: set<Node> := {};
    list := [];
    for k := 0 to |roots|
      invariant Listed(d, roots, k, list, found)
    {
      ghost var before := list;
      assert roots[k] in roots;
      list, found := TopologicalDfs(children, list, found, roots[k]);
      ListNext(d, roots, k, before, list, found);
    }
  }
}
