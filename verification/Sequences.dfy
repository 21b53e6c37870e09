module Sequences {
  function Elements<T(==)>(list: seq<T>): set<T> {
    set x | x in list
  }

  predicate Distinct<T(==)>(list: seq<T>) {
    forall i, j :: 0 <= i < j < |list| ==> list[i] != list[j]
  }

  function Without<T(==, !new)>(list: seq<T>, x: T): (r: seq<T>)
    ensures forall y :: y in r <==> y in list && y != x
  {
    if list == [] then [] else (if list[0] == x then [] else [list[0]]) + Without(list[1..], x)
  }

  lemma {:induction false} WithoutIsDistinct<T(!new)>(list: seq<T>, x: T)
    requires Distinct(list)
    ensures Distinct(Without(list, x))
    decreases |list|
  {
    if list != [] {
      WithoutIsDistinct(list[1..], x);
      assert list[0] !in list[1..];
    }
  }

  lemma LeastExists(s: set<nat>)
    requires s != {}
    ensures exists m :: m in s && forall x :: x in s ==> m <= x
  {
    var m :| m in s;
    if x :| x in s && x < m {
      LeastBelow(s, m);
    }
  }

  lemma {:induction false} LeastBelow(s: set<nat>, bound: nat)
    requires exists x :: x in s && x < bound
    ensures exists m :: m in s && forall x :: x in s ==> m <= x
  {
    var m :| m in s && m < bound;
    if x :| x in s && x < m {
      LeastBelow(s, m);
    }
  }

  function Least(s: set<nat>): (m: nat)
    requires s != {}
    ensures m in s && forall x :: x in s ==> m <= x
  {
    LeastExists(s);
    var m :| m in s && forall x :: x in s ==> m <= x;
    m
  }

  /** The elements of a set, in order. */
  function ListOf(s: set<nat>): (r: seq<nat>)
    ensures forall x :: x in r <==> x in s
  {
    if s == {} then [] else [Least(s)] + ListOf(s - {Least(s)})
  }

  lemma {:induction false} ListIsDistinct(s: set<nat>)
    ensures Distinct(ListOf(s))
  {
    if s != {} {
      ListIsDistinct(s - {Least(s)});
      assert Least(s) !in ListOf(s - {Least(s)});
    }
  }

  lemma ListMember(s: set<nat>, i: nat)
    requires i < |ListOf(s)|
    ensures ListOf(s)[i] in s
  {
    assert ListOf(s)[i] in ListOf(s);
  }

  lemma TakeOneMore<T>(list: seq<T>, i: nat)
    requires i < |list|
    ensures list[..i + 1] == list[..i] + [list[i]]
  {
  }

  lemma TakeAll<T>(list: seq<T>)
    ensures list[..|list|] == list
  {
  }
}
