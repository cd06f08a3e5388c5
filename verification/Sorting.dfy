/** The library sort as the sources use it: stable, by a comparison that is a total preorder. */
module Sorting {

  ghost predicate Preorder<T(!new)>(leq: (T, T) -> bool) {
    && (forall x, y :: leq(x, y) || leq(y, x))
    && (forall x, y, z :: leq(x, y) && leq(y, z) ==> leq(x, z))
  }

  // No two different elements tie.
  ghost predicate Linear<T(!new)>(leq: (T, T) -> bool) {
    && Preorder(leq)
    && (forall x, y :: leq(x, y) && leq(y, x) ==> x == y)
  }

  ghost predicate SortedBy<T>(xs: seq<T>, leq: (T, T) -> bool) {
    forall i, j :: 0 <= i < j < |xs| ==> leq(xs[i], xs[j])
  }

  function Insert<T>(x: T, xs: seq<T>, leq: (T, T) -> bool): seq<T> {
    if xs == [] || leq(x, xs[0]) then [x] + xs else [xs[0]] + Insert(x, xs[1..], leq)
  }

  // Insertion from the right: equal elements keep their order.
  function Sort<T>(xs: seq<T>, leq: (T, T) -> bool): seq<T> {
    if xs == [] then [] else Insert(xs[0], Sort(xs[1..], leq), leq)
  }

  lemma {:induction false} InsertPermutes<T>(x: T, xs: seq<T>, leq: (T, T) -> bool)
    ensures multiset(Insert(x, xs, leq)) == multiset([x]) + multiset(xs)
  {
    if xs != [] && !leq(x, xs[0]) {
      InsertPermutes(x, xs[1..], leq);
      assert xs == [xs[0]] + xs[1..];
    }
  }

  lemma {:induction false} SortPermutes<T>(xs: seq<T>, leq: (T, T) -> bool)
    ensures multiset(Sort(xs, leq)) == multiset(xs)
    ensures |Sort(xs, leq)| == |xs|
  {
    if xs != [] {
      SortPermutes(xs[1..], leq);
      InsertPermutes(xs[0], Sort(xs[1..], leq), leq);
      assert xs == [xs[0]] + xs[1..];
    }
    assert |multiset(Sort(xs, leq))| == |multiset(xs)|;
  }

  lemma {:induction false} InsertSorts<T(!new)>(x: T, xs: seq<T>, leq: (T, T) -> bool)
    requires Preorder(leq) && SortedBy(xs, leq)
    ensures SortedBy(Insert(x, xs, leq), leq)
  {
    if xs != [] && !leq(x, xs[0]) {
      var rest := Insert(x, xs[1..], leq);
      InsertSorts(x, xs[1..], leq);
      InsertPermutes(x, xs[1..], leq);
      forall y | y in rest ensures leq(xs[0], y) {
        assert y in multiset(rest);
        assert y == x || y in xs[1..];
      }
    }
  }

  lemma {:induction false} SortSorts<T(!new)>(xs: seq<T>, leq: (T, T) -> bool)
    requires Preorder(leq)
    ensures SortedBy(Sort(xs, leq), leq)
  {
    if xs != [] {
      SortSorts(xs[1..], leq);
      InsertSorts(xs[0], Sort(xs[1..], leq), leq);
    }
  }

  ghost predicate NoTies<T>(xs: seq<T>, leq: (T, T) -> bool) {
    forall x, y :: x in xs && y in xs && leq(x, y) && leq(y, x) ==> x == y
  }

  lemma HeadLeads<T(!new)>(xs: seq<T>, leq: (T, T) -> bool)
    requires Preorder(leq) && SortedBy(xs, leq) && xs != []
    ensures forall x :: x in multiset(xs) ==> leq(xs[0], x)
  {
    forall x | x in xs ensures leq(xs[0], x) {
      var i :| 0 <= i < |xs| && xs[i] == x;
    }
  }

  lemma Behind<T(!new)>(xs: seq<T>, leq: (T, T) -> bool)
    requires xs != []
    ensures multiset(xs[1..]) == multiset(xs) - multiset{xs[0]}
    ensures SortedBy(xs, leq) ==> SortedBy(xs[1..], leq)
    ensures NoTies(xs, leq) ==> NoTies(xs[1..], leq)
  {
    assert xs == [xs[0]] + xs[1..];
  }

  lemma SameHead<T(!new)>(xs: seq<T>, ys: seq<T>, leq: (T, T) -> bool)
    requires Preorder(leq) && NoTies(xs, leq) && SortedBy(xs, leq) && SortedBy(ys, leq) && multiset(xs) == multiset(ys)
    requires xs != []
    ensures ys != [] && xs[0] == ys[0]
  {
    hide SortedBy, Preorder;
    assert xs[0] in multiset(ys);
    assert ys[0] in multiset(xs);
    HeadLeads(xs, leq);
    HeadLeads(ys, leq);
    assert ys[0] in xs;
  }

  lemma Rebuilt<T>(xs: seq<T>, ys: seq<T>)
    requires xs != [] && ys != [] && xs[0] == ys[0] && xs[1..] == ys[1..]
    ensures xs == ys
  {
    assert xs == [xs[0]] + xs[1..] && ys == [ys[0]] + ys[1..];
  }

  lemma NothingLeft<T>(ys: seq<T>)
    requires multiset(ys) == multiset{}
    ensures ys == []
  {
    assert |multiset(ys)| == 0;
  }

  // Where no two different elements tie there is one way to sort: what arrives in another
  // order comes out the same.
  lemma {:induction false} SortedOnlyOneWay<T(!new)>(xs: seq<T>, ys: seq<T>, leq: (T, T) -> bool)
    requires Preorder(leq) && NoTies(xs, leq) && SortedBy(xs, leq) && SortedBy(ys, leq) && multiset(xs) == multiset(ys)
    ensures xs == ys
  {
    hide SortedBy, NoTies, Preorder;
    if xs == [] {
      NothingLeft(ys);
    } else {
      SameHead(xs, ys, leq);
      Behind(xs, leq);
      Behind(ys, leq);
      SortedOnlyOneWay(xs[1..], ys[1..], leq);
      Rebuilt(xs, ys);
    }
  }
}
