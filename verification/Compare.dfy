/** Agreement of two rankings of the same query. */
module Comparisons {
  import opened Optional
  import opened Lists
  import opened Overlaps
  import opened Shares

  // --- overlap ------------------------------------------------------------

  function OverlapAtK(left: seq<string>, right: seq<string>, k: nat): real {
    var l, r := Take(left, k), Take(right, k);
    var longest := if |l| < |r| then |r| else |l|;
    if longest == 0 then 1.0 else Shared(l, r) as real / longest as real
  }

  lemma {:induction false} SharedAtMost(a: seq<string>, b: seq<string>)
    ensures Shared(a, b) <= |a|
    ensures Shared(a, b) == |a| <==> forall u :: u in a ==> u in b
  {
    if a != [] {
      SharedAtMost(a[..|a| - 1], b);
      assert a == a[..|a| - 1] + [a[|a| - 1]];
    }
  }

  // The overlap of lists without repeats is a share, the same seen from either side, and
  // whole exactly when the two cuts show the same items, however short they are.
  lemma OverlapIsAShare(left: seq<string>, right: seq<string>, k: nat)
    requires Distinct(left) && Distinct(right)
    ensures 0.0 <= OverlapAtK(left, right, k) <= 1.0
    ensures OverlapAtK(left, right, k) == OverlapAtK(right, left, k)
    ensures OverlapAtK(left, right, k) == 1.0 <==> Elements(Take(left, k)) == Elements(Take(right, k))
  {
    var l, r := Take(left, k), Take(right, k);
    var longest := if |l| < |r| then |r| else |l|;
    SharedCounts(l, r);
    SharedCounts(r, l);
    SharedAtMost(l, r);
    SharedAtMost(r, l);
    ListSize(l);
    ListSize(r);
    assert Elements(l) * Elements(r) == Elements(r) * Elements(l);
    SameWhenWhole(Elements(l), Elements(r), longest);
    if longest == 0 {
      assert Elements(l) == {} && Elements(r) == {};
    } else {
      ShareIsWhole(Shared(l, r), longest);
    }
  }

  lemma SameWhenWhole(a: set<string>, b: set<string>, longest: nat)
    requires longest == if |a| < |b| then |b| else |a|
    ensures |a * b| <= |a| && |a * b| <= |b|
    ensures |a * b| == longest <==> a == b
  {
    assert a == a * b + (a - b) && b == a * b + (b - a);
    assert a * b == b * a;
    if a == b {
      assert a * b == a;
    }
  }

  // --- rank agreement -----------------------------------------------------

  type Pair = (real, real)

  // The rank an item has in a list; a later copy replaces an earlier one.
  function Ranks(list: seq<string>): map<string, nat> {
    if list == [] then map[] else Ranks(list[..|list| - 1])[list[|list| - 1] := |list| - 1]
  }

  // The two ranks of each shared item, in the left list's order.
  function Pairs(left: seq<string>, ranks: map<string, nat>): seq<Pair> {
    if left == [] then []
    else
      var before, u := Pairs(left[..|left| - 1], ranks), left[|left| - 1];
      if u in ranks then before + [((|left| - 1) as real, ranks[u] as real)] else before
  }

  function SumX(pairs: seq<Pair>): real {
    if pairs == [] then 0.0 else SumX(pairs[..|pairs| - 1]) + pairs[|pairs| - 1].0
  }

  function SumY(pairs: seq<Pair>): real {
    if pairs == [] then 0.0 else SumY(pairs[..|pairs| - 1]) + pairs[|pairs| - 1].1
  }

  // Products of deviations from two centres: xy, xx and yy.
  function Sxy(pairs: seq<Pair>, mx: real, my: real): real {
    if pairs == [] then 0.0
    else Sxy(pairs[..|pairs| - 1], mx, my) + Times(pairs[|pairs| - 1].0 - mx, pairs[|pairs| - 1].1 - my)
  }

  function Sxx(pairs: seq<Pair>, mx: real): real {
    if pairs == [] then 0.0
    else Sxx(pairs[..|pairs| - 1], mx) + Times(pairs[|pairs| - 1].0 - mx, pairs[|pairs| - 1].0 - mx)
  }

  function Syy(pairs: seq<Pair>, my: real): real {
    if pairs == [] then 0.0
    else Syy(pairs[..|pairs| - 1], my) + Times(pairs[|pairs| - 1].1 - my, pairs[|pairs| - 1].1 - my)
  }

  lemma LessTimes(a: real, b: real, c: real)
    requires a < b && c > 0.0
    ensures a * c < b * c
  {
    assert (b - a) * c > 0.0;
    assert (b - a) * c == b * c - a * c;
  }

  lemma Square(a: real)
    ensures Times(a, a) >= 0.0 && (Times(a, a) == 0.0 <==> a == 0.0)
  {
    hide Times;
    if a > 0.0 {
      Positive(a, a);
    } else if a < 0.0 {
      Positive(-a, -a);
      NegatedSquare(a);
    } else {
      SquareOfZero(a);
    }
  }

  lemma NegatedSquare(a: real)
    ensures Times(-a, -a) == Times(a, a)
  {
  }

  lemma Positive(a: real, b: real)
    requires a > 0.0 && b > 0.0
    ensures Times(a, b) > 0.0
  {
  }

  lemma SquareOfZero(a: real)
    requires a == 0.0
    ensures Times(a, a) == 0.0
  {
  }

  // No variance means every value sits at the centre.
  lemma {:induction false} NoVariance(pairs: seq<Pair>, mx: real, my: real)
    ensures Sxx(pairs, mx) >= 0.0 && (Sxx(pairs, mx) == 0.0 <==> forall i :: 0 <= i < |pairs| ==> pairs[i].0 == mx)
    ensures Syy(pairs, my) >= 0.0 && (Syy(pairs, my) == 0.0 <==> forall i :: 0 <= i < |pairs| ==> pairs[i].1 == my)
  {
    hide Times;
    if pairs != [] {
      NoVariance(pairs[..|pairs| - 1], mx, my);
      Square(pairs[|pairs| - 1].0 - mx);
      Square(pairs[|pairs| - 1].1 - my);
    }
  }

  lemma Expand(p: real, q: real, a: real, b: real)
    ensures (p * b - q * a) * (p * b - q * a) == p * p * (b * b) - 2.0 * (p * q) * (a * b) + q * q * (a * a)
  {
  }

  // A sum of squares seen as a form in the three products.
  lemma {:induction false} SumOfSquares(pairs: seq<Pair>, mx: real, my: real, p: real, q: real)
    ensures p * p * Syy(pairs, my) - 2.0 * (p * q) * Sxy(pairs, mx, my) + q * q * Sxx(pairs, mx) >= 0.0
  {
    if pairs != [] {
      var init, a, b := pairs[..|pairs| - 1], pairs[|pairs| - 1].0 - mx, pairs[|pairs| - 1].1 - my;
      SumOfSquares(init, mx, my, p, q);
      Expand(p, q, a, b);
      Square(p * b - q * a);
      Distribute(p * p, Syy(init, my), b * b);
      Distribute(2.0 * (p * q), Sxy(init, mx, my), a * b);
      Distribute(q * q, Sxx(init, mx), a * a);
    }
  }

  lemma Distribute(c: real, x: real, y: real)
    ensures c * (x + y) == c * x + c * y
  {
  }

  lemma {:induction false} NothingShared(pairs: seq<Pair>, mx: real, my: real)
    requires forall i :: 0 <= i < |pairs| ==> pairs[i].0 == mx
    ensures Sxy(pairs, mx, my) == 0.0
  {
    if pairs != [] {
      NothingShared(pairs[..|pairs| - 1], mx, my);
    }
  }

  lemma FormIsPositive(xx: real, xy: real, yy: real)
    requires xx > 0.0 && xx * xx * yy - 2.0 * (xx * xy) * xy + xy * xy * xx >= 0.0
    ensures xy * xy <= xx * yy
  {
    assert xx * xx * yy - 2.0 * (xx * xy) * xy + xy * xy * xx == xx * (xx * yy - xy * xy);
  }

  // Cauchy and Schwarz.
  lemma ProductsBounded(pairs: seq<Pair>, mx: real, my: real)
    ensures Sxy(pairs, mx, my) * Sxy(pairs, mx, my) <= Sxx(pairs, mx) * Syy(pairs, my)
  {
    NoVariance(pairs, mx, my);
    if Sxx(pairs, mx) == 0.0 {
      NothingShared(pairs, mx, my);
    } else {
      SumOfSquares(pairs, mx, my, Sxx(pairs, mx), Sxy(pairs, mx, my));
      FormIsPositive(Sxx(pairs, mx), Sxy(pairs, mx, my), Syy(pairs, my));
    }
  }

  // --- Spearman's coefficient ---------------------------------------------

  type Root = real -> real

  ghost predicate IsRoot(root: Root) {
    forall x :: x >= 0.0 ==> root(x) >= 0.0 && root(x) * root(x) == x
  }

  function MeanX(pairs: seq<Pair>): real
    requires pairs != []
  {
    SumX(pairs) / |pairs| as real
  }

  function MeanY(pairs: seq<Pair>): real
    requires pairs != []
  {
    SumY(pairs) / |pairs| as real
  }

  // The correlation of the two ranks, for at least two shared items.
  function Rho(pairs: seq<Pair>, root: Root): Option<real>
    requires IsRoot(root)
  {
    if |pairs| < 2 then None
    else
      var mx, my := MeanX(pairs), MeanY(pairs);
      var xx, yy := Sxx(pairs, mx), Syy(pairs, my);
      if xx == 0.0 || yy == 0.0 then Some(1.0)
      else
        NoVariance(pairs, mx, my);
        Some(Coefficient(Sxy(pairs, mx, my), xx, yy, root))
  }

  function Coefficient(xy: real, xx: real, yy: real, root: Root): real
    requires IsRoot(root) && xx > 0.0 && yy > 0.0
  {
    PositiveRoot(xx, yy, root);
    Over(xy, root(Times(xx, yy)))
  }

  function Over(a: real, b: real): real
    requires b != 0.0
  {
    a / b
  }

  method Deviations(pairs: seq<Pair>, mx: real, my: real) returns (sxy: real, sxx: real, syy: real)
    ensures sxy == Sxy(pairs, mx, my) && sxx == Sxx(pairs, mx) && syy == Syy(pairs, my)
  {
    sxy, sxx, syy := 0.0, 0.0, 0.0;
    for i := 0 to |pairs|
      invariant sxy == Sxy(pairs[..i], mx, my) && sxx == Sxx(pairs[..i], mx) && syy == Syy(pairs[..i], my)
    {
      assert pairs[..i + 1][..i] == pairs[..i];
      var (x, y) := pairs[i];
      sxy := sxy + (x - mx) * (y - my);
      sxx := sxx + (x - mx) * (x - mx);
      syy := syy + (y - my) * (y - my);
    }
    assert pairs[..|pairs|] == pairs;
  }

  method Spearman(left: seq<string>, right: seq<string>, k: nat, root: Root) returns (rho: Option<real>)
    requires IsRoot(root)
    ensures rho == Rho(Pairs(Take(left, k), Ranks(Take(right, k))), root)
  {
    hide Sxy, Sxx, Syy, Times, Over, SumX, SumY, Pairs, Ranks;
    var pairs := Pairs(Take(left, k), Ranks(Take(right, k)));
    if |pairs| < 2 {
      return None;
    }
    var mx, my := MeanX(pairs), MeanY(pairs);
    var sxy, sxx, syy := Deviations(pairs, mx, my);
    if sxx == 0.0 || syy == 0.0 {
      return Some(1.0);
    }
    NoVariance(pairs, mx, my);
    PositiveRoot(sxx, syy, root);
    rho := Some(Over(sxy, root(Times(sxx, syy))));
  }

  lemma PositiveRoot(xx: real, yy: real, root: Root)
    requires IsRoot(root) && xx > 0.0 && yy > 0.0
    ensures var r := root(Times(xx, yy)); xx * yy > 0.0 && r > 0.0 && r * r == xx * yy
  {
    LessTimes(0.0, xx, yy);
    Square(root(Times(xx, yy)));
  }

  lemma SquareOrder(a: real, b: real)
    requires 0.0 < b < a
    ensures b * b < a * a
  {
    LessTimes(b, a, b);
    LessTimes(b, a, a);
  }

  lemma NoLarger(a: real, b: real)
    requires b > 0.0 && a * a <= b * b
    ensures -b <= a <= b
  {
    if a > b {
      SquareOrder(a, b);
    } else if -a > b {
      assert -a * -a == a * a;
      SquareOrder(-a, b);
    }
  }

  lemma WithinOne(a: real, b: real)
    requires b > 0.0 && -b <= a <= b
    ensures -1.0 <= Over(a, b) <= 1.0
  {
    var q := Over(a, b);
    assert q * b == a;
    if q > 1.0 {
      LessTimes(1.0, q, b);
    } else if q < -1.0 {
      LessTimes(q, -1.0, b);
    }
  }

  // A coefficient never leaves [-1, 1].
  lemma RhoBounded(pairs: seq<Pair>, root: Root)
    requires IsRoot(root) && Rho(pairs, root).Some?
    ensures -1.0 <= Rho(pairs, root).value <= 1.0
  {
    hide Sxx, Syy, Sxy, MeanX, MeanY;
    var mx, my := MeanX(pairs), MeanY(pairs);
    ProductsBounded(pairs, mx, my);
    NoVariance(pairs, mx, my);
    var xx, yy := Sxx(pairs, mx), Syy(pairs, my);
    if xx != 0.0 && yy != 0.0 {
      PositiveRoot(xx, yy, root);
      NoLarger(Sxy(pairs, mx, my), root(Times(xx, yy)));
      WithinOne(Sxy(pairs, mx, my), root(Times(xx, yy)));
    }
  }

  lemma {:induction false} RanksAt(list: seq<string>)
    ensures forall u :: u in Ranks(list) <==> u in list
    ensures forall u :: u in Ranks(list) ==> Ranks(list)[u] < |list| && list[Ranks(list)[u]] == u
  {
    if list != [] {
      RanksAt(list[..|list| - 1]);
      assert list == list[..|list| - 1] + [list[|list| - 1]];
    }
  }

  // Which positions of the left list the pairs come from.
  lemma {:induction false} PairsAt(left: seq<string>, ranks: map<string, nat>) returns (at: seq<nat>)
    ensures |at| == |Pairs(left, ranks)|
    ensures forall i, j :: 0 <= i < j < |at| ==> at[i] < at[j]
    ensures forall i :: 0 <= i < |at| ==>
      && at[i] < |left| && left[at[i]] in ranks
      && Pairs(left, ranks)[i] == (at[i] as real, ranks[left[at[i]]] as real)
  {
    at := [];
    if left != [] {
      var init, u := left[..|left| - 1], left[|left| - 1];
      at := PairsAt(init, ranks);
      if u in ranks {
        at := at + [|left| - 1];
      }
    }
  }

  lemma {:induction false} PairsAreShared(left: seq<string>, right: seq<string>)
    ensures |Pairs(left, Ranks(right))| == Shared(left, right)
  {
    RanksAt(right);
    if left != [] {
      PairsAreShared(left[..|left| - 1], right);
    }
  }

  // Once two items are shared both sides vary: the branch for no variance is never taken.
  lemma BothVary(left: seq<string>, right: seq<string>, k: nat)
    requires Distinct(left) && Distinct(right) && Shared(Take(left, k), Take(right, k)) >= 2
    ensures var pairs := Pairs(Take(left, k), Ranks(Take(right, k)));
      |pairs| >= 2 && Sxx(pairs, MeanX(pairs)) > 0.0 && Syy(pairs, MeanY(pairs)) > 0.0
  {
    var l, r := Take(left, k), Take(right, k);
    PairsAreShared(l, r);
    RanksAt(r);
    var pairs := Pairs(l, Ranks(r));
    var at := PairsAt(l, Ranks(r));
    assert at[0] < at[1] && l[at[0]] != l[at[1]];
    assert pairs[0].0 != pairs[1].0 && pairs[0].1 != pairs[1].1;
    NoVariance(pairs, MeanX(pairs), MeanY(pairs));
  }

  // --- the two ends of the scale ------------------------------------------

  lemma {:induction false} SameOnBothSides(pairs: seq<Pair>, m: real)
    requires forall i :: 0 <= i < |pairs| ==> pairs[i].0 == pairs[i].1
    ensures SumX(pairs) == SumY(pairs) && Sxy(pairs, m, m) == Sxx(pairs, m) == Syy(pairs, m)
  {
    if pairs != [] {
      SameOnBothSides(pairs[..|pairs| - 1], m);
    }
  }

  lemma RootOfSquare(x: real, root: Root)
    requires IsRoot(root) && x > 0.0
    ensures root(Times(x, x)) == x
  {
    var r := root(Times(x, x));
    PositiveRoot(x, x, root);
    if r < x {
      LessTimes(r, x, r);
      LessTimes(r, x, x);
    } else if r > x {
      LessTimes(x, r, r);
      LessTimes(x, r, x);
    }
  }

  lemma SelfPairs(list: seq<string>, i: nat)
    requires Distinct(list) && i < |Pairs(list, Ranks(list))|
    ensures Pairs(list, Ranks(list))[i].0 == Pairs(list, Ranks(list))[i].1
  {
    RanksAt(list);
    var at := PairsAt(list, Ranks(list));
    assert list[Ranks(list)[list[at[i]]]] == list[at[i]];
  }

  // A list agrees with itself perfectly.
  lemma SelfAgrees(list: seq<string>, k: nat, root: Root)
    requires IsRoot(root) && Distinct(list) && |Take(list, k)| >= 2
    ensures Rho(Pairs(Take(list, k), Ranks(Take(list, k))), root) == Some(1.0)
  {
    hide Sxx, Syy, Sxy, SumX, SumY, Pairs, Ranks, Shared, Coefficient;
    var top := Take(list, k);
    var pairs := Pairs(top, Ranks(top));
    SharedAtMost(top, top);
    BothVary(list, list, k);
    forall i | 0 <= i < |pairs| ensures pairs[i].0 == pairs[i].1 {
      SelfPairs(top, i);
    }
    SameOnBothSides(pairs, MeanX(pairs));
    Settled(Sxx(pairs, MeanX(pairs)), Sxx(pairs, MeanX(pairs)), root);
  }

  lemma Settled(xx: real, xy: real, root: Root)
    requires IsRoot(root) && xx > 0.0 && (xy == xx || xy == -xx)
    ensures Coefficient(xy, xx, xx, root) == if xy == xx then 1.0 else -1.0
  {
    RootOfSquare(xx, root);
    assert xy / xx * xx == xy;
  }

  function Reversed(list: seq<string>): (reversed: seq<string>)
    ensures |reversed| == |list| && forall i :: 0 <= i < |list| ==> reversed[i] == list[|list| - 1 - i]
  {
    seq(|list|, i requires 0 <= i < |list| => list[|list| - 1 - i])
  }

  lemma {:induction false} OppositeSides(pairs: seq<Pair>, c: real, mx: real, my: real)
    requires forall i :: 0 <= i < |pairs| ==> pairs[i].1 == c - pairs[i].0
    ensures SumY(pairs) == |pairs| as real * c - SumX(pairs)
    ensures my == c - mx ==> Sxy(pairs, mx, my) == -Sxx(pairs, mx) && Syy(pairs, my) == Sxx(pairs, mx)
  {
    if pairs != [] {
      OppositeSides(pairs[..|pairs| - 1], c, mx, my);
      var x := pairs[|pairs| - 1].0;
      if my == c - mx {
        Opposite(x - mx, pairs[|pairs| - 1].1 - my);
      }
    }
  }

  lemma Opposite(a: real, b: real)
    requires b == -a
    ensures a * b == -(a * a) && b * b == a * a
  {
  }

  lemma MeansOpposite(sx: real, sy: real, n: real, c: real)
    requires n > 0.0 && sy == n * c - sx
    ensures sy / n == c - sx / n
  {
    assert sx / n * n == sx;
    assert (c - sx / n) * n == sy;
  }

  lemma ReversedPairs(list: seq<string>, i: nat)
    requires Distinct(list) && i < |Pairs(list, Ranks(Reversed(list)))|
    ensures var pairs := Pairs(list, Ranks(Reversed(list))); pairs[i].1 == (|list| - 1) as real - pairs[i].0
  {
    RanksAt(Reversed(list));
    var at := PairsAt(list, Ranks(Reversed(list)));
    assert Reversed(list)[Ranks(Reversed(list))[list[at[i]]]] == list[at[i]];
  }

  // A list disagrees perfectly with its reversal, when the cut covers it.
  lemma ReversalDisagrees(list: seq<string>, k: nat, root: Root)
    requires IsRoot(root) && Distinct(list) && 2 <= |list| <= k
    ensures Rho(Pairs(Take(list, k), Ranks(Take(Reversed(list), k))), root) == Some(-1.0)
  {
    hide Sxx, Syy, Sxy, SumX, SumY, Pairs, Ranks, Shared, Reversed, Coefficient;
    var back := Reversed(list);
    var pairs := Pairs(list, Ranks(back));
    var c := (|list| - 1) as real;
    forall u | u in list ensures u in back {
      var i :| 0 <= i < |list| && list[i] == u;
      assert back[|list| - 1 - i] == u;
    }
    SharedAtMost(list, back);
    BothVary(list, back, k);
    forall i | 0 <= i < |pairs| ensures pairs[i].1 == c - pairs[i].0 {
      ReversedPairs(list, i);
    }
    OppositeSides(pairs, c, MeanX(pairs), MeanY(pairs));
    MeansOpposite(SumX(pairs), SumY(pairs), |pairs| as real, c);
    Settled(Sxx(pairs, MeanX(pairs)), Sxy(pairs, MeanX(pairs), MeanY(pairs)), root);
  }
}
