/** Ordered collections listed in their order, each item once. */
module Listings {

  /** A strict total order. */
  ghost predicate IsOrder<T(!new)>(before: (T, T) -> bool) {
    && (forall a, b :: a == b || before(a, b) || before(b, a))
    && (forall a :: !before(a, a))
    && (forall a, b, c :: before(a, b) && before(b, c) ==> before(a, c))
  }

  ghost predicate Lists<T(!new)>(before: (T, T) -> bool, list: seq<T>, items: set<T>) {
    && (forall x :: x in list <==> x in items)
    && (forall i, j :: 0 <= i < j < |list| ==> before(list[i], list[j]))
  }

  predicate IsLeast<T(==)>(before: (T, T) -> bool, items: set<T>, least: T) {
    least in items && forall x :: x in items && x != least ==> before(least, x)
  }

  lemma {:induction false} LeastExists<T(!new)>(before: (T, T) -> bool, items: set<T>)
    requires IsOrder(before) && items != {}
    ensures exists least :: IsLeast(before, items, least)
  {
    var some :| some in items;
    var rest := items - {some};
    if rest == {} {
      assert items == {some};
      assert IsLeast(before, items, some);
    } else {
      LeastExists(before, rest);
      var other :| IsLeast(before, rest, other);
      assert IsLeast(before, items, if before(other, some) then other else some);
    }
  }

  /** The listing of a set in its order. */
  ghost function Listing<T(!new)>(before: (T, T) -> bool, items: set<T>): (list: seq<T>)
    requires IsOrder(before)
    ensures Lists(before, list, items)
  {
    if items == {} then []
    else
      LeastExists(before, items);
      var least :| IsLeast(before, items, least);
      [least] + Listing(before, items - {least})
  }

  /** The iteration of an ordered set. */
  method ListInOrder<T(!new, ==)>(before: (T, T) -> bool, items: set<T>) returns (list: seq<T>)
    requires IsOrder(before)
    ensures Lists(before, list, items)
  {
    list := [];
    var todo := items;
    while todo != {}
      invariant todo <= items && Lists(before, list, items - todo)
      invariant forall x, y :: x in list && y in todo ==> before(x, y)
      decreases todo
    {
      LeastExists(before, todo);
      var least :| IsLeast(before, todo, least);
      list := list + [least];
      todo := todo - {least};
    }
    assert items - todo == items;
  }

  /** A set has only one listing. */
  lemma {:induction false} OnlyOneListing<T(!new)>(before: (T, T) -> bool, a: seq<T>, b: seq<T>, items: set<T>)
    requires IsOrder(before) && Lists(before, a, items) && Lists(before, b, items)
    ensures a == b
  {
    if a == [] || b == [] {
      if a != [] { FirstIsLeast(before, b, items, a[0]); }
      if b != [] { FirstIsLeast(before, a, items, b[0]); }
    } else {
      FirstIsLeast(before, a, items, b[0]);
      FirstIsLeast(before, b, items, a[0]);
      TailLists(before, a, items);
      TailLists(before, b, items);
      OnlyOneListing(before, a[1..], b[1..], items - {a[0]});
      assert a == [a[0]] + a[1..] && b == [b[0]] + b[1..];
    }
  }

  lemma FirstIsLeast<T(!new)>(before: (T, T) -> bool, list: seq<T>, items: set<T>, x: T)
    requires Lists(before, list, items) && x in items
    ensures list != [] && (x == list[0] || before(list[0], x))
  {
    var i :| 0 <= i < |list| && list[i] == x;
  }

  lemma TailLists<T(!new)>(before: (T, T) -> bool, list: seq<T>, items: set<T>)
    requires IsOrder(before) && list != [] && Lists(before, list, items)
    ensures Lists(before, list[1..], items - {list[0]})
  {
    assert list == [list[0]] + list[1..];
    assert forall x :: x in list <==> x == list[0] || x in list[1..];
    assert forall j :: 0 <= j < |list| - 1 ==> list[1..][j] == list[j + 1] && before(list[0], list[j + 1]);
  }
}
