/** Ranking metrics over labelled queries, in exact arithmetic. The discount of a rank is a
    parameter, positive and falling; the program uses one over a logarithm. */
module Evaluation {
  import opened Lists
  import opened Shares
  import opened Sorting

  datatype Relevance = Relevance(uuid: string, grade: nat)

  datatype QueryScore = QueryScore(recall: real, reciprocalRank: real, ndcg: real)

  type Discount = nat -> real

  ghost predicate Falls(discount: Discount) {
    (forall i :: discount(i) > 0.0) && (forall i, j :: i < j ==> discount(i) > discount(j))
  }

  // A later label for the same turn replaces an earlier one.
  function Grades(relevant: seq<Relevance>): map<string, nat> {
    if relevant == [] then map[]
    else
      var last := relevant[|relevant| - 1];
      Grades(relevant[..|relevant| - 1])[last.uuid := last.grade]
  }

  function Gain(grade: nat): (gain: real)
    ensures gain >= 0.0 && (gain == 0.0 <==> grade == 0)
  {
    Power(grade) - 1.0
  }

  function Power(n: nat): (p: real)
    ensures p >= 1.0 && (p == 1.0 <==> n == 0)
  {
    if n == 0 then 1.0 else 2.0 * Power(n - 1)
  }

  lemma {:induction false} GainRises(g: nat, h: nat)
    requires g <= h
    ensures Gain(g) <= Gain(h) && (Gain(g) == Gain(h) <==> g == h)
    decreases h
  {
    if g < h {
      GainRises(g, h - 1);
    }
  }

  function GradeOf(grades: map<string, nat>, uuid: string): nat { if uuid in grades then grades[uuid] else 0 }

  function GradesOf(grades: map<string, nat>, top: seq<string>): (list: seq<nat>)
    ensures |list| == |top| && forall i :: 0 <= i < |top| ==> list[i] == GradeOf(grades, top[i])
  {
    if top == [] then [] else GradesOf(grades, top[..|top| - 1]) + [GradeOf(grades, top[|top| - 1])]
  }

  // The discounted sum of a list of grades.
  function Dcg(list: seq<nat>, discount: Discount): real {
    if list == [] then 0.0
    else Dcg(list[..|list| - 1], discount) + Times(Gain(list[|list| - 1]), discount(|list| - 1))
  }

  lemma OneMoreRank(list: seq<nat>, g: nat, discount: Discount)
    ensures Dcg(list + [g], discount) == Dcg(list, discount) + Times(Gain(g), discount(|list|))
    ensures Gains(list + [g]) == Gains(list) + Gain(g)
    ensures g == 0 ==> Dcg(list + [g], discount) == Dcg(list, discount)
  {
    assert (list + [g])[..|list|] == list;
    assert g == 0 ==> Gain(g) == 0.0;
  }

  const DESCENDING: (nat, nat) -> bool := (g: nat, h: nat) => g >= h

  // The grades of all labelled turns, in some order.
  ghost predicate ListsGrades(grades: map<string, nat>, list: seq<nat>) {
    exists keys :: Distinct(keys) && (forall k :: k in keys <==> k in grades) && list == GradesOf(grades, keys)
  }

  // The grades a perfect ranking shows.
  ghost predicate IsIdeal(grades: map<string, nat>, ideal: seq<nat>) {
    && SortedBy(ideal, DESCENDING)
    && exists list: seq<nat> :: ListsGrades(grades, list) && multiset(ideal) == multiset(list)
  }

  // --- a ranking cannot beat the ideal ------------------------------------

  // Positive grades come from different labelled turns.
  ghost predicate NoRepeats(grades: map<string, nat>, top: seq<string>) {
    forall i, j :: 0 <= i < j < |top| && top[i] == top[j] ==> top[i] !in grades
  }

  // The positive grades of `drawn` are among those of `all`, as often.
  ghost predicate Drawn(drawn: seq<nat>, all: seq<nat>) {
    forall g :: g != 0 ==> multiset(drawn)[g] <= multiset(all)[g]
  }

  function Without<T>(list: seq<T>, i: nat): seq<T>
    requires i < |list|
  {
    list[..i] + list[i + 1..]
  }

  lemma OneLess<T>(list: seq<T>, i: nat)
    requires i < |list|
    ensures multiset(list) == multiset(Without(list, i)) + multiset{list[i]}
  {
    assert list == list[..i] + [list[i]] + list[i + 1..];
  }

  lemma KeysWithout(grades: map<string, nat>, keys: seq<string>, i: nat)
    requires Distinct(keys) && (forall k :: k in keys <==> k in grades) && i < |keys|
    ensures Distinct(Without(keys, i)) && forall k :: k in Without(keys, i) <==> k in grades - {keys[i]}
  {
    var rest := Without(keys, i);
    forall k | k in grades && k != keys[i] ensures k in rest {
      var j :| 0 <= j < |keys| && keys[j] == k;
      assert rest[if j < i then j else j - 1] == k;
    }
    forall k | k in rest ensures k in grades && k != keys[i] {
      var j :| 0 <= j < |rest| && rest[j] == k;
      assert keys[if j < i then j else j + 1] == k;
    }
  }

  lemma WithoutAt<T>(list: seq<T>, i: nat, j: nat)
    requires i < |list| && j < |list| - 1
    ensures |Without(list, i)| == |list| - 1 && Without(list, i)[j] == list[if j < i then j else j + 1]
  {
  }

  lemma GradesWithout(grades: map<string, nat>, keys: seq<string>, i: nat)
    requires Distinct(keys) && i < |keys|
    ensures GradesOf(grades - {keys[i]}, Without(keys, i)) == Without(GradesOf(grades, keys), i)
  {
    hide GradesOf, Without;
    var others, rest, list := grades - {keys[i]}, Without(keys, i), GradesOf(grades, keys);
    WithoutLength(keys, i);
    WithoutLength(list, i);
    forall j | 0 <= j < |rest| ensures GradesOf(others, rest)[j] == Without(list, i)[j] {
      WithoutAt(keys, i, j);
      WithoutAt(list, i, j);
    }
  }

  lemma WithoutLength<T>(list: seq<T>, i: nat)
    requires i < |list|
    ensures |Without(list, i)| == |list| - 1
  {
  }

  lemma {:induction false} DrawnFromLabels(grades: map<string, nat>, top: seq<string>, keys: seq<string>)
    requires NoRepeats(grades, top) && Distinct(keys) && forall k :: k in keys <==> k in grades
    ensures Drawn(GradesOf(grades, top), GradesOf(grades, keys))
    decreases |top|
  {
    if top != [] {
      var init, u := top[..|top| - 1], top[|top| - 1];
      assert GradesOf(grades, top) == GradesOf(grades, init) + [GradeOf(grades, u)];
      hide GradesOf, Distinct, NoRepeats;
      if u !in grades {
        NoRepeatsBefore(grades, top);
        DrawnFromLabels(grades, init, keys);
      } else {
        var i :| 0 <= i < |keys| && keys[i] == u;
        KeysWithout(grades, keys, i);
        GradesWithout(grades, keys, i);
        OneLess(GradesOf(grades, keys), i);
        NoRepeatsBefore(grades, top);
        DrawnFromLabels(grades - {u}, init, Without(keys, i));
      }
    }
  }

  lemma NoRepeatsBefore(grades: map<string, nat>, top: seq<string>)
    requires top != [] && NoRepeats(grades, top)
    ensures var init, u := top[..|top| - 1], top[|top| - 1];
      && NoRepeats(grades, init)
      && (u in grades ==> NoRepeats(grades - {u}, init) && GradesOf(grades - {u}, init) == GradesOf(grades, init))
  {
    var init, u := top[..|top| - 1], top[|top| - 1];
    if u in grades {
      assert forall i :: 0 <= i < |init| ==> init[i] != u && GradeOf(grades - {u}, init[i]) == GradeOf(grades, init[i]);
      assert GradesOf(grades - {u}, init) == GradesOf(grades, init);
    }
  }

  function Gains(list: seq<nat>): real {
    if list == [] then 0.0 else Gains(list[..|list| - 1]) + Gain(list[|list| - 1])
  }

  lemma {:induction false} GainsWithout(list: seq<nat>, i: nat)
    requires i < |list|
    ensures Gains(list) == Gains(Without(list, i)) + Gain(list[i])
  {
    var n := |list| - 1;
    if i < n {
      GainsWithout(list[..n], i);
      assert Without(list, i)[..n - 1] == Without(list[..n], i);
    } else {
      assert Without(list, i) == list[..n];
    }
  }

  // However many grades are drawn from the labels, they gain no more than as many of the best.
  lemma {:induction false} BestOfThem(drawn: seq<nat>, ideal: seq<nat>)
    requires SortedBy(ideal, DESCENDING) && Drawn(drawn, ideal)
    ensures Gains(drawn) <= Gains(Take(ideal, |drawn|))
    decreases |drawn|
  {
    hide Drawn, Gain, Gains, Without;
    if drawn == [] {
      assert Take(ideal, 0) == [];
    } else if ideal == [] {
      forall i | 0 <= i < |drawn| ensures drawn[i] == 0 {
        DrawnIsThere(drawn, ideal, i);
      }
      NothingGained(drawn);
      NothingGained(ideal);
      assert Take(ideal, |drawn|) == ideal;
    } else {
      var i := if ideal[0] in drawn then IndexOf(drawn, ideal[0]) else 0;
      var best := Take(ideal, |drawn|);
      var rest, tail := Without(drawn, i), ideal[1..];
      DrawnIsThere(drawn, ideal, i);
      TailCovers(drawn, ideal, i);
      OneShorter(drawn, ideal, i);
      BestOfThem(rest, tail);
      GainsWithout(drawn, i);
      GainsWithout(best, 0);
      GainRises(drawn[i], ideal[0]);
    }
  }

  lemma OneShorter(drawn: seq<nat>, ideal: seq<nat>, i: nat)
    requires i < |drawn| && ideal != []
    ensures |Without(drawn, i)| == |drawn| - 1
    ensures Without(Take(ideal, |drawn|), 0) == Take(ideal[1..], |drawn| - 1)
  {
  }

  lemma TailCovers(drawn: seq<nat>, ideal: seq<nat>, i: nat)
    requires Drawn(drawn, ideal) && ideal != [] && i < |drawn| && (drawn[i] == ideal[0] || ideal[0] !in drawn)
    ensures Drawn(Without(drawn, i), ideal[1..])
  {
    OneLess(drawn, i);
    OneLess(ideal, 0);
    assert Without(ideal, 0) == ideal[1..];
    forall g | g != 0 ensures multiset(Without(drawn, i))[g] <= multiset(ideal[1..])[g] {
      assert multiset(drawn)[g] <= multiset(ideal)[g];
      assert g !in drawn ==> multiset(drawn)[g] == 0;
    }
  }

  lemma DrawnIsThere(drawn: seq<nat>, ideal: seq<nat>, i: nat)
    requires SortedBy(ideal, DESCENDING) && Drawn(drawn, ideal) && i < |drawn|
    ensures drawn[i] == 0 || (ideal != [] && drawn[i] <= ideal[0])
  {
    var g := drawn[i];
    assert g in multiset(drawn);
    if g != 0 {
      assert g in multiset(ideal);
    }
  }

  function IndexOf(list: seq<nat>, g: nat): (i: nat)
    requires g in list
    ensures i < |list| && list[i] == g
  {
    if list[0] == g then 0 else 1 + IndexOf(list[1..], g)
  }

  lemma {:induction false} NothingGained(list: seq<nat>)
    requires forall i :: 0 <= i < |list| ==> list[i] == 0
    ensures Gains(list) == 0.0
  {
    if list != [] {
      NothingGained(list[..|list| - 1]);
      assert Gain(0) == 0.0;
    }
  }

  // Behind, or level, on every prefix.
  ghost predicate Behind(xs: seq<nat>, ys: seq<nat>) {
    |xs| == |ys| && Gains(xs) <= Gains(ys) && (xs != [] ==> Behind(xs[..|xs| - 1], ys[..|ys| - 1]))
  }

  // Summation by parts: what is behind on every prefix is behind under falling discounts.
  lemma {:induction false} BehindUnderDiscounts(xs: seq<nat>, ys: seq<nat>, discount: Discount)
    requires Falls(discount) && Behind(xs, ys)
    ensures xs != [] ==>
      Dcg(ys, discount) - Dcg(xs, discount) >= discount(|xs| - 1) * (Gains(ys) - Gains(xs))
    ensures Dcg(xs, discount) <= Dcg(ys, discount)
  {
    hide Gain;
    if xs != [] {
      var n := |xs| - 1;
      var xs', ys' := xs[..n], ys[..n];
      BehindUnderDiscounts(xs', ys', discount);
      var x, y, d := Gain(xs[n]), Gain(ys[n]), discount(n);
      var before := if n > 0 then discount(n - 1) else d;
      assert before >= d > 0.0 && Gains(xs') <= Gains(ys');
      var ahead, lead := Dcg(ys', discount) - Dcg(xs', discount), Gains(ys') - Gains(xs');
      assert n == 0 ==> ahead == lead == 0.0;
      assert ahead >= before * lead;
      assert Gains(ys) - Gains(xs) == lead + y - x
        && Dcg(ys, discount) - Dcg(xs, discount) == ahead + Times(y, d) - Times(x, d);
      Parts(ahead, lead, x, y, before, d);
    }
  }

  function At(list: seq<nat>, i: nat): nat { if i < |list| then list[i] else 0 }

  // The first n grades, with nothing for the ranks past the end.
  function Padded(list: seq<nat>, n: nat): (padded: seq<nat>)
    ensures |padded| == n
  {
    if n == 0 then [] else Padded(list, n - 1) + [At(list, n - 1)]
  }

  lemma {:induction false} PaddingIsNothing(list: seq<nat>, n: nat, discount: Discount)
    ensures Gains(Padded(list, n)) == Gains(Take(list, n))
      && Dcg(Padded(list, n), discount) == Dcg(Take(list, n), discount)
  {
    hide Gain, Dcg, Gains, Times;
    if n == 0 {
      assert Take(list, n) == [];
    } else {
      PaddingIsNothing(list, n - 1, discount);
      assert Gain(0) == 0.0;
      OneMoreRank(Padded(list, n - 1), At(list, n - 1), discount);
      if n <= |list| {
        assert Take(list, n) == Take(list, n - 1) + [list[n - 1]];
        OneMoreRank(Take(list, n - 1), list[n - 1], discount);
      }
    }
  }

  lemma NoLoss(grade: nat, d: real)
    requires d > 0.0
    ensures Times(Gain(grade), d) >= 0.0
  {
    Sign(Gain(grade), d);
  }

  lemma {:induction false} MoreRanksGainMore(list: seq<nat>, n: nat, k: nat, discount: Discount)
    requires Falls(discount) && n <= k
    ensures Dcg(Padded(list, n), discount) <= Dcg(Padded(list, k), discount)
    decreases k
  {
    hide Gain, Dcg, Times, At;
    if n < k {
      MoreRanksGainMore(list, n, k - 1, discount);
      var g := At(list, k - 1);
      assert Padded(list, k) == Padded(list, k - 1) + [g];
      OneMoreRank(Padded(list, k - 1), g, discount);
      NoLoss(g, discount(k - 1));
    }
  }

  lemma {:induction false} IdealIsAhead(drawn: seq<nat>, ideal: seq<nat>, discount: Discount)
    requires SortedBy(ideal, DESCENDING) && Drawn(drawn, ideal)
    ensures Behind(drawn, Padded(ideal, |drawn|))
  {
    BestOfThem(drawn, ideal);
    PaddingIsNothing(ideal, |drawn|, discount);
    if drawn != [] {
      var n := |drawn| - 1;
      DrawnBefore(drawn, ideal);
      IdealIsAhead(drawn[..n], ideal, discount);
      assert Padded(ideal, |drawn|)[..n] == Padded(ideal, n);
    }
  }

  lemma DrawnBefore(drawn: seq<nat>, all: seq<nat>)
    requires Drawn(drawn, all) && drawn != []
    ensures Drawn(drawn[..|drawn| - 1], all)
  {
    var init := drawn[..|drawn| - 1];
    assert drawn == init + [drawn[|drawn| - 1]];
    forall g | g != 0 ensures multiset(init)[g] <= multiset(all)[g] {
      assert multiset(drawn)[g] <= multiset(all)[g];
    }
  }

  // No ranking without repeats among the labelled turns beats the ideal.
  lemma DcgAtMostIdeal(grades: map<string, nat>, top: seq<string>, ideal: seq<nat>, k: nat, discount: Discount)
    requires Falls(discount) && NoRepeats(grades, top) && |top| <= k && IsIdeal(grades, ideal)
    ensures 0.0 <= Dcg(GradesOf(grades, top), discount) <= Dcg(Take(ideal, k), discount)
  {
    var list: seq<nat> :| ListsGrades(grades, list) && multiset(ideal) == multiset(list);
    var keys :| Distinct(keys) && (forall key :: key in keys <==> key in grades) && list == GradesOf(grades, keys);
    DrawnFromLabels(grades, top, keys);
    var drawn := GradesOf(grades, top);
    assert Drawn(drawn, ideal) by {
      forall g | g != 0 ensures multiset(drawn)[g] <= multiset(ideal)[g] {}
    }
    IdealIsAhead(drawn, ideal, discount);
    BehindUnderDiscounts(drawn, Padded(ideal, |top|), discount);
    MoreRanksGainMore(ideal, |top|, k, discount);
    PaddingIsNothing(ideal, k, discount);
    NotNegative(drawn, discount);
  }

  lemma {:induction false} NotNegative(list: seq<nat>, discount: Discount)
    requires Falls(discount)
    ensures Dcg(list, discount) >= 0.0
  {
    if list != [] {
      NotNegative(list[..|list| - 1], discount);
      Sign(Gain(list[|list| - 1]), discount(|list| - 1));
    }
  }

  lemma Parts(ahead: real, lead: real, x: real, y: real, d: real, d': real)
    requires ahead >= d * lead && d >= d' > 0.0 && lead >= 0.0 && lead + y - x >= 0.0
    ensures ahead + Times(y, d') - Times(x, d') >= d' * (lead + y - x) >= 0.0
  {
    assert d * lead >= d' * lead;
    assert d' * lead + y * d' - x * d' == d' * (lead + y - x);
  }

  // --- swapping two neighbours --------------------------------------------

  function Swapped<T>(list: seq<T>, i: nat): seq<T>
    requires i + 1 < |list|
  {
    list[i := list[i + 1]][i + 1 := list[i]]
  }

  // Putting two neighbours in order never loses, and gains unless they tie.
  lemma {:induction false} SwapDifference(list: seq<nat>, i: nat, discount: Discount)
    requires i + 1 < |list|
    ensures Dcg(Swapped(list, i), discount) - Dcg(list, discount)
         == Times(Gain(list[i + 1]) - Gain(list[i]), discount(i) - discount(i + 1))
  {
    hide Gain, Dcg, Times;
    var n := |list| - 1;
    var init, last := list[..n], list[n];
    assert list == init + [last];
    if i + 1 < n {
      SwapDifference(init, i, discount);
      assert Swapped(list, i) == Swapped(init, i) + [last];
      OneMoreRank(init, last, discount);
      OneMoreRank(Swapped(init, i), last, discount);
    } else {
      assert init == list[..i] + [list[i]] && Swapped(list, i) == list[..i] + [list[i + 1]] + [list[i]];
      SwapLast(list[..i], list[i], list[i + 1], discount);
    }
  }

  lemma SwapLast(rest: seq<nat>, x: nat, y: nat, discount: Discount)
    ensures var i := |rest|;
      Dcg(rest + [y] + [x], discount) - Dcg(rest + [x] + [y], discount)
        == Times(Gain(y) - Gain(x), discount(i) - discount(i + 1))
  {
    hide Gain, Dcg, Times;
    OneMoreRank(rest, x, discount);
    OneMoreRank(rest + [x], y, discount);
    OneMoreRank(rest, y, discount);
    OneMoreRank(rest + [y], x, discount);
    SwapTwo(Gain(x), Gain(y), discount(|rest|), discount(|rest| + 1));
  }

  lemma SwapGains(list: seq<nat>, i: nat, discount: Discount)
    requires i + 1 < |list| && Falls(discount)
    ensures Dcg(Swapped(list, i), discount) >= Dcg(list, discount) <==> list[i] <= list[i + 1]
    ensures Dcg(Swapped(list, i), discount) == Dcg(list, discount) <==> list[i] == list[i + 1]
  {
    hide Gain, Dcg, Times, Swapped;
    SwapDifference(list, i, discount);
    if list[i] < list[i + 1] {
      GainRises(list[i], list[i + 1]);
    } else {
      GainRises(list[i + 1], list[i]);
    }
    Sign(Gain(list[i + 1]) - Gain(list[i]), discount(i) - discount(i + 1));
  }

  lemma SwapTwo(x: real, y: real, d: real, d': real)
    ensures Times(y, d) + Times(x, d') - Times(x, d) - Times(y, d') == Times(y - x, d - d')
  {
  }

  lemma Sign(a: real, b: real)
    requires b > 0.0
    ensures (Times(a, b) > 0.0 <==> a > 0.0) && (Times(a, b) == 0.0 <==> a == 0.0)
  {
  }

  // --- one query's score --------------------------------------------------

  function Hits(grades: map<string, nat>, top: seq<string>): nat {
    if top == [] then 0 else Hits(grades, top[..|top| - 1]) + if top[|top| - 1] in grades then 1 else 0
  }

  ghost function Found(grades: map<string, nat>, top: seq<string>): set<string> { set u | u in top && u in grades }

  // Without repeats, the hits are as many as the labelled turns shown.
  lemma {:induction false} HitsAreFound(grades: map<string, nat>, top: seq<string>)
    requires NoRepeats(grades, top)
    ensures Hits(grades, top) == |Found(grades, top)| <= |grades|
  {
    if top != [] {
      HitsAreFound(grades, top[..|top| - 1]);
      FoundOneMore(grades, top);
    }
    FoundLabelled(grades, top);
  }

  lemma FoundOneMore(grades: map<string, nat>, top: seq<string>)
    requires NoRepeats(grades, top) && top != []
    ensures var init, u := top[..|top| - 1], top[|top| - 1];
      && NoRepeats(grades, init) && u !in Found(grades, init)
      && Found(grades, top) == Found(grades, init) + if u in grades then {u} else {}
  {
    assert top == top[..|top| - 1] + [top[|top| - 1]];
  }

  lemma FoundLabelled(grades: map<string, nat>, top: seq<string>)
    ensures |Found(grades, top)| <= |grades|
  {
    assert |grades.Keys| == |grades|;
    SubsetSize(Found(grades, top), grades.Keys);
  }

  lemma {:induction false} AllHits(grades: map<string, nat>, top: seq<string>)
    ensures Hits(grades, top) <= |top|
    ensures Hits(grades, top) == |top| <==> forall u :: u in top ==> u in grades
  {
    if top != [] {
      AllHits(grades, top[..|top| - 1]);
      assert top == top[..|top| - 1] + [top[|top| - 1]];
    }
  }

  function Reachable(grades: map<string, nat>, k: nat): nat { if |grades| < k then |grades| else k }

  function Recall(grades: map<string, nat>, top: seq<string>, k: nat): real {
    if Reachable(grades, k) == 0 then 0.0 else Hits(grades, top) as real / Reachable(grades, k) as real
  }

  // Recall is a share, and it is whole exactly when every labelled turn is shown or the cut
  // shows nothing but labelled turns.
  lemma RecallIsAShare(grades: map<string, nat>, top: seq<string>, k: nat)
    requires NoRepeats(grades, top) && |top| <= k
    ensures 0.0 <= Recall(grades, top, k) <= 1.0
    ensures Reachable(grades, k) > 0 ==>
      (Recall(grades, top, k) == 1.0 <==>
        (forall u :: u in grades ==> u in top) || (|top| == k && forall u :: u in top ==> u in grades))
  {
    HitsAreFound(grades, top);
    AllHits(grades, top);
    var found := Found(grades, top);
    assert found <= grades.Keys && |grades.Keys| == |grades|;
    SubsetSize(found, grades.Keys);
    assert found == grades.Keys <==> forall u :: u in grades ==> u in top;
    ShareIsWhole(Hits(grades, top), Reachable(grades, k));
  }

  // The rank of the first labelled turn.
  ghost predicate IsFirst(grades: map<string, nat>, top: seq<string>, i: nat) {
    i < |top| && top[i] in grades && forall j :: 0 <= j < i ==> top[j] !in grades
  }

  method ListGrades(grades: map<string, nat>) returns (list: seq<nat>)
    ensures ListsGrades(grades, list)
  {
    var left := grades.Keys;
    ghost var keys: seq<string> := [];
    list := [];
    while left != {}
      invariant left <= grades.Keys && Distinct(keys) && forall k :: k in keys <==> k in grades && k !in left
      invariant list == GradesOf(grades, keys)
      decreases |left|
    {
      var k :| k in left;
      left := left - {k};
      assert (keys + [k])[..|keys|] == keys;
      keys, list := keys + [k], list + [grades[k]];
    }
  }

  function Quotient(dcg: real, idcg: real): real { if idcg == 0.0 then 0.0 else dcg / idcg }

  // The discounted gain over the ideal's.
  ghost predicate IsNdcg(grades: map<string, nat>, top: seq<string>, k: nat, discount: Discount, ndcg: real) {
    exists ideal: seq<nat> :: IsIdeal(grades, ideal) &&
      ndcg == Quotient(Dcg(GradesOf(grades, top), discount), Dcg(Take(ideal, k), discount))
  }

  // Without repeats it is a share.
  lemma NdcgIsAShare(grades: map<string, nat>, top: seq<string>, k: nat, discount: Discount, ndcg: real)
    requires Falls(discount) && NoRepeats(grades, top) && |top| <= k && IsNdcg(grades, top, k, discount, ndcg)
    ensures 0.0 <= ndcg <= 1.0
  {
    var ideal: seq<nat> :| IsIdeal(grades, ideal) &&
      ndcg == Quotient(Dcg(GradesOf(grades, top), discount), Dcg(Take(ideal, k), discount));
    DcgAtMostIdeal(grades, top, ideal, k, discount);
    hide Dcg, IsIdeal;
    if Dcg(Take(ideal, k), discount) != 0.0 {
      Ratio(Dcg(GradesOf(grades, top), discount), Dcg(Take(ideal, k), discount));
    }
  }

  method Ndcg(grades: map<string, nat>, top: seq<string>, k: nat, discount: Discount) returns (ndcg: real)
    ensures IsNdcg(grades, top, k, discount, ndcg)
  {
    hide Dcg;
    var list := ListGrades(grades);
    var ideal := Sort(list, DESCENDING);
    SortPermutes(list, DESCENDING);
    SortSorts(list, DESCENDING);
    assert IsIdeal(grades, ideal);
    ndcg := Quotient(Dcg(GradesOf(grades, top), discount), Dcg(Take(ideal, k), discount));
  }

  method Score(ranked: seq<string>, relevant: seq<Relevance>, k: nat, discount: Discount) returns (score: QueryScore)
    requires Falls(discount)
    ensures var grades, top := Grades(relevant), Take(ranked, k);
      && score.recall == Recall(grades, top, k)
      && IsNdcg(grades, top, k, discount, score.ndcg)
      && (Hits(grades, top) == 0 ==> score.reciprocalRank == 0.0)
      && (forall i: nat :: IsFirst(grades, top, i) ==> score.reciprocalRank == 1.0 / (i + 1) as real)
      && (NoRepeats(grades, top) ==> 0.0 <= score.recall <= 1.0 && 0.0 <= score.ndcg <= 1.0)
  {
    hide IsNdcg, Recall, NoRepeats;
    var grades, top := Grades(relevant), Take(ranked, k);
    var recall := Recall(grades, top, k);
    var first := FindFirst(grades, top);
    var reciprocalRank := if first < |top| then 1.0 / (first + 1) as real else 0.0;
    var ndcg := Ndcg(grades, top, k, discount);
    score := QueryScore(recall, reciprocalRank, ndcg);
    if NoRepeats(grades, top) {
      RecallIsAShare(grades, top, k);
      NdcgIsAShare(grades, top, k, discount, ndcg);
    }
  }

  lemma Ratio(part: real, whole: real)
    requires 0.0 <= part <= whole && whole > 0.0
    ensures 0.0 <= part / whole <= 1.0
  {
    assert part / whole * whole == part;
  }

  method FindFirst(grades: map<string, nat>, top: seq<string>) returns (first: nat)
    ensures first <= |top| && (first < |top| ==> IsFirst(grades, top, first))
    ensures first == |top| <==> Hits(grades, top) == 0
    ensures forall i :: IsFirst(grades, top, i) ==> i == first
  {
    first := 0;
    while first < |top| && top[first] !in grades
      invariant first <= |top| && forall j :: 0 <= j < first ==> top[j] !in grades
    {
      first := first + 1;
    }
    NoHits(grades, top);
  }

  lemma {:induction false} NoHits(grades: map<string, nat>, top: seq<string>)
    ensures Hits(grades, top) == 0 <==> forall j :: 0 <= j < |top| ==> top[j] !in grades
  {
    if top != [] {
      NoHits(grades, top[..|top| - 1]);
    }
  }

  // A ranking that shows the one labelled turn twice scores above one.
  lemma RepeatsBeatTheIdeal(u: string, grade: nat, discount: Discount)
    requires Falls(discount) && grade > 0
    ensures var grades, top := map[u := grade], [u, u];
      && IsIdeal(grades, [grade]) && Take([grade], 2) == [grade]
      && Dcg(GradesOf(grades, top), discount) > Dcg([grade], discount) > 0.0
      && Recall(grades, top, 2) == 2.0
  {
    hide Dcg, GradesOf, IsIdeal, Hits, Recall;
    OneLabel(u, grade);
    TwoRanks(grade, discount);
    TwoHits(map[u := grade], [u, u]);
  }

  lemma TwoHits(grades: map<string, nat>, top: seq<string>)
    requires Hits(grades, top) == 2 && |grades| == 1
    ensures Recall(grades, top, 2) == 2.0
  {
    hide Hits;
  }

  lemma OneLabel(u: string, grade: nat)
    ensures var grades := map[u := grade];
      && IsIdeal(grades, [grade]) && GradesOf(grades, [u, u]) == [grade, grade] && Hits(grades, [u, u]) == 2
        && |grades| == 1
  {
    var grades := map[u := grade];
    OneGrade(u, grade);
    OneHit(u, grade);
    hide GradesOf, Hits;
    assert Distinct([u]) && forall k :: k in [u] <==> k in grades;
    assert ListsGrades(grades, [grade]);
    hide ListsGrades;
    assert SortedBy([grade], DESCENDING);
  }

  lemma OneGrade(u: string, grade: nat)
    ensures GradesOf(map[u := grade], [u]) == [grade] && GradesOf(map[u := grade], [u, u]) == [grade, grade]
  {
    hide GradesOf;
  }

  lemma OneHit(u: string, grade: nat)
    ensures Hits(map[u := grade], [u, u]) == 2 && |map[u := grade]| == 1
  {
    assert [u, u][..1] == [u] && [u][..0] == [];
    assert map[u := grade].Keys == {u};
    assert Hits(map[u := grade], [u]) == 1;
  }

  lemma TwoRanks(grade: nat, discount: Discount)
    requires Falls(discount) && grade > 0
    ensures Dcg([grade, grade], discount) > Dcg([grade], discount) > 0.0
  {
    var none: seq<nat> := [];
    assert Dcg(none, discount) == 0.0 && none + [grade] == [grade] && [grade] + [grade] == [grade, grade];
    OneMoreRank(none, grade, discount);
    OneMoreRank([grade], grade, discount);
    Sign(Gain(grade), discount(0));
    Sign(Gain(grade), discount(1));
    hide Dcg, Times;
  }
}
