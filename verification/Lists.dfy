/** Sequences and sets: what several modules need of them. */
module Lists {

  function Take<T>(xs: seq<T>, k: nat): seq<T> { if k < |xs| then xs[..k] else xs }

  ghost predicate Distinct<T>(xs: seq<T>) {
    forall i, j :: 0 <= i < j < |xs| ==> xs[i] != xs[j]
  }

  lemma SubsetSize<T>(a: set<T>, b: set<T>)
    requires a <= b
    ensures |a| <= |b| && |b - a| == |b| - |a| && (|a| == |b| ==> a == b)
  {
    assert b == a + (b - a);
  }

  lemma SomeInt(s: set<int>)
    requires s != {}
    ensures exists n :: n in s
  {
    if forall n :: n !in s {
      assert false;
    }
  }

  function Elements<T>(xs: seq<T>): set<T> { set x | x in xs }

  // A list is as long as the set of its elements when it has no repeats.
  lemma {:induction false} ListSize<T>(xs: seq<T>)
    ensures |Elements(xs)| <= |xs|
    ensures Distinct(xs) ==> |Elements(xs)| == |xs|
  {
    if xs != [] {
      var init, last := xs[..|xs| - 1], xs[|xs| - 1];
      ListSize(init);
      assert xs == init + [last];
      assert Elements(xs) == Elements(init) + {last};
    }
  }

  lemma OnceEach<T>(xs: seq<T>, s: set<T>)
    requires multiset(xs) == multiset(s)
    ensures Distinct(xs)
    ensures forall x :: x in xs <==> x in s
  {
    forall i, j | 0 <= i < j < |xs| ensures xs[i] != xs[j] {
      assert xs == xs[..j] + [xs[j]] + xs[j + 1..];
      assert xs[i] == xs[..j][i] && multiset(xs[..j])[xs[i]] >= 1;
      assert multiset(xs) == multiset(xs[..j]) + multiset([xs[j]]) + multiset(xs[j + 1..]);
      assert multiset(s)[xs[i]] <= 1;
    }
    forall x ensures x in xs <==> x in s {
      assert x in multiset(xs) <==> x in multiset(s);
    }
  }

  lemma {:induction false} OnceOnly<T>(xs: seq<T>, x: T)
    requires Distinct(xs)
    ensures multiset(xs)[x] <= 1
  {
    if xs != [] {
      var init, last := xs[..|xs| - 1], xs[|xs| - 1];
      OnceOnly(init, x);
      assert xs == init + [last] && last !in init;
    }
  }

  // A rearrangement of different elements has different elements.
  lemma DistinctKept<T>(xs: seq<T>, ys: seq<T>)
    requires Distinct(xs) && multiset(xs) == multiset(ys)
    ensures Distinct(ys)
  {
    forall i, j | 0 <= i < j < |ys| ensures ys[i] != ys[j] {
      assert ys == ys[..j] + [ys[j]] + ys[j + 1..];
      assert ys[i] in ys[..j] && multiset(ys[..j])[ys[i]] >= 1;
      assert multiset(ys) == multiset(ys[..j]) + multiset([ys[j]]) + multiset(ys[j + 1..]);
      OnceOnly(xs, ys[j]);
    }
  }
}
