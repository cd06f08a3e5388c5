/** The seeded generator: one mix of an additive counter, and a shuffle drawn from it. */
module Generators {
  import opened Lists

  // --- the mix is a permutation of the 64-bit words -----------------------

  function Fold30(x: bv64): bv64 { x ^ (x >> 30) }

  function Fold27(x: bv64): bv64 { x ^ (x >> 27) }

  function Fold31(x: bv64): bv64 { x ^ (x >> 31) }

  function TimesFirst(x: bv64): bv64 { x * 0xBF58_476D_1CE4_E5B9 }

  function TimesSecond(x: bv64): bv64 { x * 0x94D0_49BB_1331_11EB }

  function Mix(state: bv64): bv64 { Fold31(TimesSecond(Fold27(TimesFirst(Fold30(state))))) }

  function Unfold30(y: bv64): bv64 { y ^ (y >> 30) ^ (y >> 60) }

  function Unfold27(y: bv64): bv64 { y ^ (y >> 27) ^ (y >> 54) }

  function Unfold31(y: bv64): bv64 { y ^ (y >> 31) ^ (y >> 62) }

  // The odd constants have inverses modulo 2^64.
  function OverFirst(x: bv64): bv64 { x * 0x96DE_1B17_3F11_9089 }

  function OverSecond(x: bv64): bv64 { x * 0x3196_42B2_D24D_8EC3 }

  function Unmix(draw: bv64): bv64 { Unfold30(OverFirst(Unfold27(OverSecond(Unfold31(draw))))) }

  lemma Unfold30Expanded(x: bv64)
    ensures Unfold30(x ^ (x >> 30)) == x
  {
  }

  lemma Fold30Expanded(x: bv64)
    ensures Fold30(x ^ (x >> 30) ^ (x >> 60)) == x
  {
  }

  lemma Folded30(x: bv64)
    ensures Unfold30(Fold30(x)) == x
  {
    hide Unfold30;
    Unfold30Expanded(x);
  }

  lemma Unfolded30(x: bv64)
    ensures Fold30(Unfold30(x)) == x
  {
    hide Fold30;
    Fold30Expanded(x);
  }

  lemma Unfold27Expanded(x: bv64)
    ensures Unfold27(x ^ (x >> 27)) == x
  {
  }

  lemma Fold27Expanded(x: bv64)
    ensures Fold27(x ^ (x >> 27) ^ (x >> 54)) == x
  {
  }

  lemma Folded27(x: bv64)
    ensures Unfold27(Fold27(x)) == x
  {
    hide Unfold27;
    Unfold27Expanded(x);
  }

  lemma Unfolded27(x: bv64)
    ensures Fold27(Unfold27(x)) == x
  {
    hide Fold27;
    Fold27Expanded(x);
  }

  lemma Unfold31Expanded(x: bv64)
    ensures Unfold31(x ^ (x >> 31)) == x
  {
  }

  lemma Fold31Expanded(x: bv64)
    ensures Fold31(x ^ (x >> 31) ^ (x >> 62)) == x
  {
  }

  lemma Folded31(x: bv64)
    ensures Unfold31(Fold31(x)) == x
  {
    hide Unfold31;
    Unfold31Expanded(x);
  }

  lemma Unfolded31(x: bv64)
    ensures Fold31(Unfold31(x)) == x
  {
    hide Fold31;
    Fold31Expanded(x);
  }

  lemma OverFirstExpanded(x: bv64)
    ensures OverFirst(x * 0xBF58_476D_1CE4_E5B9) == x
  {
  }

  lemma TimesFirstExpanded(x: bv64)
    ensures TimesFirst(x * 0x96DE_1B17_3F11_9089) == x
  {
  }

  lemma FirstDivides(x: bv64)
    ensures OverFirst(TimesFirst(x)) == x
  {
    hide OverFirst;
    OverFirstExpanded(x);
  }

  lemma FirstMultiplies(x: bv64)
    ensures TimesFirst(OverFirst(x)) == x
  {
    hide TimesFirst;
    TimesFirstExpanded(x);
  }

  lemma OverSecondExpanded(x: bv64)
    ensures OverSecond(x * 0x94D0_49BB_1331_11EB) == x
  {
  }

  lemma TimesSecondExpanded(x: bv64)
    ensures TimesSecond(x * 0x3196_42B2_D24D_8EC3) == x
  {
  }

  lemma SecondDivides(x: bv64)
    ensures OverSecond(TimesSecond(x)) == x
  {
    hide OverSecond;
    OverSecondExpanded(x);
  }

  lemma SecondMultiplies(x: bv64)
    ensures TimesSecond(OverSecond(x)) == x
  {
    hide TimesSecond;
    TimesSecondExpanded(x);
  }

  // Mixing loses nothing,
  lemma MixKeepsAll(x: bv64)
    ensures Unmix(Mix(x)) == x
  {
    hide Fold30, Fold27, Fold31, Unfold30, Unfold27, Unfold31, TimesFirst, TimesSecond, OverFirst, OverSecond;
    var z := TimesFirst(Fold30(x));
    Folded31(TimesSecond(Fold27(z)));
    SecondDivides(Fold27(z));
    Folded27(z);
    FirstDivides(Fold30(x));
    Folded30(x);
  }

  // and reaches everything.
  lemma MixReachesAll(x: bv64)
    ensures Mix(Unmix(x)) == x
  {
    hide Fold30, Fold27, Fold31, Unfold30, Unfold27, Unfold31, TimesFirst, TimesSecond, OverFirst, OverSecond;
    var y := Unfold27(OverSecond(Unfold31(x)));
    Unfolded30(OverFirst(y));
    FirstMultiplies(y);
    Unfolded27(OverSecond(Unfold31(x)));
    SecondMultiplies(Unfold31(x));
    Unfolded31(x);
  }

  // --- the period ---------------------------------------------------------

  function TimesGamma(x: bv64): bv64 { x * 0x9E37_79B9_7F4A_7C15 }

  function OverGamma(x: bv64): bv64 { x * 0xF1DE_83E1_9937_733D }

  lemma OverGammaExpanded(x: bv64)
    ensures OverGamma(x * 0x9E37_79B9_7F4A_7C15) == x
  {
  }

  lemma TimesGammaExpanded(x: bv64)
    ensures TimesGamma(x * 0xF1DE_83E1_9937_733D) == x
  {
  }

  lemma GammaDivides(x: bv64)
    ensures OverGamma(TimesGamma(x)) == x
  {
    hide OverGamma;
    OverGammaExpanded(x);
  }

  lemma GammaMultiplies(x: bv64)
    ensures TimesGamma(OverGamma(x)) == x
  {
    hide TimesGamma;
    TimesGammaExpanded(x);
  }

  function Plus(a: bv64, b: bv64): bv64 { a + b }

  function Minus(a: bv64, b: bv64): bv64 { a - b }

  lemma PlusIs(a: bv64, b: bv64)
    ensures Plus(a, b) == a + b
  {
  }

  lemma MinusExpanded(a: bv64, b: bv64)
    ensures Minus(a + b, a) == b && Minus(a + b, b) == a
  {
  }

  lemma PlusFirstExpanded(a: bv64, b: bv64)
    ensures Plus(a, b - a) == b
  {
  }

  lemma PlusSecondExpanded(a: bv64, b: bv64)
    ensures Plus(a - b, b) == a
  {
  }

  lemma MinusIs(a: bv64, b: bv64)
    ensures Minus(a, b) == a - b
  {
  }

  lemma PlusMinus(a: bv64, b: bv64)
    ensures Minus(Plus(a, b), a) == b && Minus(Plus(a, b), b) == a
    ensures Plus(a, Minus(b, a)) == b && Plus(Minus(a, b), b) == a
  {
    hide Plus, Minus;
    PlusIs(a, b);
    MinusExpanded(a, b);
    MinusIs(b, a);
    PlusFirstExpanded(a, b);
    MinusIs(a, b);
    PlusSecondExpanded(a, b);
  }

  // What one draw does to the state.
  function Next(state: bv64): bv64 { Plus(state, 0x9E37_79B9_7F4A_7C15) }

  // The state after n draws from a seed, n counted in 64 bits, and the draw that follows.
  function StateAt(seed: bv64, n: bv64): bv64 { Plus(seed, TimesGamma(n)) }

  function DrawAt(seed: bv64, n: bv64): bv64 { Mix(StateAt(seed, Plus(n, 1))) }

  // A number in 64 bits.
  function Counted(n: nat): bv64 { if n == 0 then 0 else Plus(Counted(n - 1), 1) }

  lemma StateSteps(seed: bv64, n: bv64)
    ensures StateAt(seed, 0) == seed
    ensures StateAt(seed, Plus(n, 1)) == Next(StateAt(seed, n))
  {
    hide TimesGamma, Plus;
    StartExpanded(seed);
    GammaStep(n);
    PlusAssociates(seed, TimesGamma(n), 0x9E37_79B9_7F4A_7C15);
  }

  lemma GammaStep(n: bv64)
    ensures TimesGamma(Plus(n, 1)) == Plus(TimesGamma(n), 0x9E37_79B9_7F4A_7C15)
  {
    hide TimesGamma;
    GammaIs(n);
    GammaStepExpanded(n);
  }

  lemma PlusAssociates(a: bv64, b: bv64, c: bv64)
    ensures Plus(a, Plus(b, c)) == Plus(Plus(a, b), c)
  {
    hide Plus;
    PlusIs(b, c);
    PlusIs(a, b);
    AssociateExpanded(a, b, c);
  }

  lemma GammaIs(n: bv64)
    ensures TimesGamma(n) == n * 0x9E37_79B9_7F4A_7C15
  {
  }

  lemma GammaStepExpanded(n: bv64)
    ensures TimesGamma(n + 1) == Plus(n * 0x9E37_79B9_7F4A_7C15, 0x9E37_79B9_7F4A_7C15)
  {
  }

  lemma AssociateExpanded(a: bv64, b: bv64, c: bv64)
    ensures Plus(a, b + c) == Plus(a + b, c)
  {
  }

  lemma StartExpanded(seed: bv64)
    ensures Plus(seed, TimesGamma(0)) == seed
  {
  }

  // Which draw gives a value.
  function DrawOf(seed: bv64, draw: bv64): bv64 { Minus(OverGamma(Minus(Unmix(draw), seed)), 1) }

  // Of 2^64 draws in a row from any seed, each 64-bit value is exactly one.
  lemma EachValueOnce(seed: bv64, n: bv64, draw: bv64)
    ensures DrawAt(seed, n) == draw <==> n == DrawOf(seed, draw)
  {
    hide Mix, Unmix, Plus, Minus, TimesGamma, OverGamma;
    if DrawAt(seed, n) == draw {
      MixKeepsAll(StateAt(seed, Plus(n, 1)));
      PlusMinus(seed, TimesGamma(Plus(n, 1)));
      GammaDivides(Plus(n, 1));
      PlusMinus(n, 1);
    }
    if n == DrawOf(seed, draw) {
      PlusMinus(OverGamma(Minus(Unmix(draw), seed)), 1);
      GammaMultiplies(Minus(Unmix(draw), seed));
      PlusMinus(seed, Unmix(draw));
      MixReachesAll(draw);
    }
  }

  lemma DrawsDiffer(seed: bv64, n: bv64, m: bv64)
    ensures DrawAt(seed, n) == DrawAt(seed, m) <==> n == m
  {
    hide DrawAt, DrawOf;
    EachValueOnce(seed, n, DrawAt(seed, m));
    EachValueOnce(seed, m, DrawAt(seed, m));
  }

  // --- shuffling ----------------------------------------------------------

  function Swap<T>(items: seq<T>, i: nat, j: nat): seq<T>
    requires i < |items| && j < |items|
  {
    items[i := items[j]][j := items[i]]
  }

  // One choice per position, each no further than the position itself.
  ghost predicate Choices(choices: seq<nat>, n: nat) {
    |choices| == n && forall i :: 0 <= i < n ==> choices[i] <= i
  }

  // The items after the swaps at every position from the last down to `i`.
  ghost function After<T>(items: seq<T>, choices: seq<nat>, i: nat): (after: seq<T>)
    requires Choices(choices, |items|)
    ensures |after| == |items|
    decreases |items| - i
  {
    if i >= |items| then items else Swap(After(items, choices, i + 1), i, choices[i])
  }

  lemma SwapPermutes<T>(items: seq<T>, i: nat, j: nat)
    requires i < |items| && j < |items|
    ensures multiset(Swap(items, i, j)) == multiset(items)
  {
  }

  lemma AfterOne<T>(items: seq<T>, choices: seq<nat>, i: nat)
    requires Choices(choices, |items|) && i < |items|
    ensures After(items, choices, i) == Swap(After(items, choices, i + 1), i, choices[i])
  {
  }

  lemma {:induction false} AfterPermutes<T>(items: seq<T>, choices: seq<nat>, i: nat)
    requires Choices(choices, |items|)
    ensures multiset(After(items, choices, i)) == multiset(items)
    decreases |items| - i
  {
    hide Swap;
    if i < |items| {
      AfterPermutes(items, choices, i + 1);
      AfterOne(items, choices, i);
      SwapPermutes(After(items, choices, i + 1), i, choices[i]);
    }
  }

  // Only the choices from `i` on have been used.
  lemma {:induction false} AfterUsesTheRest<T>(items: seq<T>, choices: seq<nat>, others: seq<nat>, i: nat)
    requires Choices(choices, |items|) && Choices(others, |items|)
    requires forall j :: i <= j < |items| ==> choices[j] == others[j]
    ensures After(items, choices, i) == After(items, others, i)
    decreases |items| - i
  {
    if i < |items| {
      AfterUsesTheRest(items, choices, others, i + 1);
    }
  }

  // Positions from `i` on are settled: the swaps below do not touch them.
  lemma {:induction false} Settled<T>(items: seq<T>, choices: seq<nat>, i: nat, low: nat)
    requires Choices(choices, |items|) && low <= i
    ensures forall j :: i <= j < |items| ==> After(items, choices, low)[j] == After(items, choices, i)[j]
    decreases i - low
  {
    if low < i && low < |items| {
      Settled(items, choices, i, low + 1);
    }
  }

  lemma SwapPlaces<T>(items: seq<T>, i: nat, j: nat)
    requires i < |items| && j < |items|
    ensures Swap(items, i, j)[i] == items[j]
    ensures forall k :: 0 <= k < |items| && k != i && k != j ==> Swap(items, i, j)[k] == items[k]
  {
  }

  lemma SamePlace<T>(items: seq<T>, i: nat, j: nat)
    requires Distinct(items) && i < |items| && j < |items| && items[i] == items[j]
    ensures i == j
  {
  }

  // Swapping distinct items at `i` with two places gives the same order only for one place.
  lemma SameSwap<T>(items: seq<T>, i: nat, j: nat, j': nat)
    requires Distinct(items) && i < |items| && j < |items| && j' < |items|
    requires Swap(items, i, j)[i] == Swap(items, i, j')[i]
    ensures j == j'
  {
    hide Swap, Distinct;
    SwapPlaces(items, i, j);
    SwapPlaces(items, i, j');
    SamePlace(items, j, j');
  }

  lemma DistinctAfter<T>(items: seq<T>, choices: seq<nat>, i: nat)
    requires Distinct(items) && Choices(choices, |items|)
    ensures Distinct(After(items, choices, i))
  {
    hide Distinct, After, Choices;
    AfterPermutes(items, choices, i);
    DistinctKept(items, After(items, choices, i));
  }

  // What stands at `i` in the end stands there once that position has been swapped.
  lemma SettledAt<T>(items: seq<T>, choices: seq<nat>, i: nat)
    requires Choices(choices, |items|) && i < |items|
    ensures After(items, choices, 0)[i] == Swap(After(items, choices, i + 1), i, choices[i])[i]
  {
    hide Swap, After;
    Settled(items, choices, i, 0);
    AfterOne(items, choices, i);
  }

  // Two choice sequences that reach the same order of distinct items are the same, but for
  // the positions below `i`.
  lemma {:induction false} SameChoices<T>(items: seq<T>, choices: seq<nat>, others: seq<nat>, i: nat)
    requires Distinct(items) && Choices(choices, |items|) && Choices(others, |items|)
    requires After(items, choices, 0) == After(items, others, 0)
    ensures After(items, choices, i) == After(items, others, i)
    ensures forall j :: i <= j < |items| ==> choices[j] == others[j]
    decreases |items| - i
  {
    hide Swap, Distinct, After;
    if i < |items| {
      SameChoices(items, choices, others, i + 1);
      SettledAt(items, choices, i);
      SettledAt(items, others, i);
      DistinctAfter(items, choices, i + 1);
      SameSwap(After(items, choices, i + 1), i, choices[i], others[i]);
      AfterOne(items, choices, i);
      AfterOne(items, others, i);
    } else {
      AfterNone(items, choices, i);
      AfterNone(items, others, i);
    }
  }

  lemma AfterNone<T>(items: seq<T>, choices: seq<nat>, i: nat)
    requires Choices(choices, |items|) && i >= |items|
    ensures After(items, choices, i) == items
  {
  }

  lemma SameRest<T>(a: multiset<T>, b: multiset<T>, rest: multiset<T>)
    requires a + rest == b + rest
    ensures a == b
  {
    forall x ensures a[x] == b[x] {
      assert (a + rest)[x] == (b + rest)[x];
    }
  }

  // What belongs at position `i` is still among the positions not settled.
  lemma PlaceOf<T>(q: seq<T>, order: seq<T>, i: nat) returns (c: nat)
    requires |q| == |order| && i < |q| && multiset(q) == multiset(order)
    requires forall j :: i < j < |q| ==> q[j] == order[j]
    ensures c <= i && q[c] == order[i]
  {
    assert q[i + 1..] == order[i + 1..];
    assert q == q[..i + 1] + q[i + 1..] && order == order[..i + 1] + order[i + 1..];
    assert multiset(q) == multiset(q[..i + 1]) + multiset(q[i + 1..]);
    assert multiset(order) == multiset(order[..i + 1]) + multiset(order[i + 1..]);
    SameRest(multiset(q[..i + 1]), multiset(order[..i + 1]), multiset(q[i + 1..]));
    assert order[..i + 1][i] in multiset(q[..i + 1]);
    c :| 0 <= c < i + 1 && q[..i + 1][c] == order[i];
  }

  // One more position put right.
  lemma ChooseOne<T>(items: seq<T>, order: seq<T>, before: seq<nat>, i: nat) returns (choices: seq<nat>)
    requires multiset(items) == multiset(order) && |items| == |order| && i < |items| && Choices(before, |items|)
    requires forall j :: i < j < |items| ==> After(items, before, i + 1)[j] == order[j]
    ensures Choices(choices, |items|)
    ensures forall j :: i <= j < |items| ==> After(items, choices, i)[j] == order[j]
  {
    AfterPermutes(items, before, i + 1);
    hide After, Swap;
    var q := After(items, before, i + 1);
    var c := PlaceOf(q, order, i);
    choices := before[i := c];
    AfterUsesTheRest(items, before, choices, i + 1);
    AfterOne(items, choices, i);
    SwapPlaces(q, i, c);
  }

  // The choices that lead to a given order, from the last position down to `i`.
  lemma {:induction false} ChoicesFor<T>(items: seq<T>, order: seq<T>, i: nat) returns (choices: seq<nat>)
    requires multiset(items) == multiset(order) && |items| == |order| && i <= |items|
    ensures Choices(choices, |items|)
    ensures forall j :: i <= j < |items| ==> After(items, choices, i)[j] == order[j]
    decreases |items| - i
  {
    hide After;
    if i == |items| {
      choices := seq(|items|, j requires 0 <= j < |items| => 0);
    } else {
      var before := ChoicesFor(items, order, i + 1);
      choices := ChooseOne(items, order, before, i);
    }
  }

  // Every order of distinct items comes from exactly one choice sequence.
  lemma EveryOrderOnce<T>(items: seq<T>, order: seq<T>) returns (choices: seq<nat>)
    requires Distinct(items) && multiset(items) == multiset(order)
    ensures Choices(choices, |items|) && After(items, choices, 0) == order
    ensures forall others :: Choices(others, |items|) && After(items, others, 0) == order ==> others == choices
  {
    assert |multiset(items)| == |multiset(order)|;
    choices := ChoicesFor(items, order, 0);
    forall others | Choices(others, |items|) && After(items, others, 0) == order ensures others == choices {
      SameChoices(items, others, choices, 0);
    }
  }

  // The states and draws of a shuffle, counted from its start.
  lemma DrawFollows(seed: bv64, n: nat)
    ensures StateAt(seed, Counted(n + 1)) == Next(StateAt(seed, Counted(n)))
    ensures DrawAt(seed, Counted(n)) == Mix(StateAt(seed, Counted(n + 1)))
  {
    hide Mix, Next, Plus, StateAt;
    StateSteps(seed, Counted(n));
  }

  // The choice at one position more is the swap there.
  lemma OneChoiceMore<T>(items: seq<T>, choices: seq<nat>, i: nat, j: nat)
    requires Choices(choices, |items|) && j <= i < |items|
    ensures var more := choices[i := j];
      Choices(more, |items|) && After(items, more, i) == Swap(After(items, choices, i + 1), i, j)
  {
    hide Swap;
    var more := choices[i := j];
    AfterUsesTheRest(items, choices, more, i + 1);
  }

  lemma AtTheStart<T>(items: seq<T>, seed: bv64)
    ensures Counted(0) == 0 && StateAt(seed, 0) == seed
    ensures forall choices :: Choices(choices, |items|) ==> After(items, choices, |items|) == items
  {
    hide Plus;
    StateSteps(seed, 0);
  }

  class Rng {
    var state: bv64

    constructor (seed: bv64)
      ensures state == seed
    {
      state := seed;
    }

    method NextU64() returns (draw: bv64)
      modifies this
      ensures state == Next(old(state)) && draw == Mix(state)
    {
      state := Next(state);
      draw := Mix(state);
    }

    method Below(n: nat) returns (r: nat)
      requires n > 0
      modifies this
      ensures r < n && state == Next(old(state)) && r == Mix(state) as nat % n
    {
      var draw := NextU64();
      r := draw as nat % n;
    }

    method Range(lo: nat, hi: nat) returns (r: nat)
      requires lo <= hi
      modifies this
      ensures lo <= r <= hi && state == Next(old(state))
    {
      var offset := Below(hi - lo + 1);
      r := lo + offset;
    }

    // Fisher and Yates, in place: one draw per position but the first, the last one first.
    method Shuffle<T>(items: array<T>) returns (ghost choices: seq<nat>)
      modifies this, items
      ensures Choices(choices, items.Length) && items[..] == After(old(items[..]), choices, 0)
      ensures multiset(items[..]) == multiset(old(items[..]))
      ensures forall i :: 1 <= i < items.Length ==>
        choices[i] == DrawAt(old(state), Counted(items.Length - 1 - i)) as nat % (i + 1)
      ensures state == StateAt(old(state), Counted(if items.Length == 0 then 0 else items.Length - 1))
    {
      hide Mix, Next, StateAt, DrawAt, Counted, After;
      ghost var was, seed := items[..], state;
      AtTheStart(was, seed);
      choices := seq(items.Length, j requires 0 <= j < items.Length => 0);
      if items.Length > 0 {
        for i := items.Length downto 1
          invariant Choices(choices, items.Length)
          invariant items[..] == After(was, choices, i)
          invariant state == StateAt(seed, Counted(items.Length - i))
          invariant forall k :: i <= k < items.Length && k > 0 ==>
            choices[k] == DrawAt(seed, Counted(items.Length - 1 - k)) as nat % (k + 1)
        {
          DrawFollows(seed, items.Length - 1 - i);
          var j := Below(i + 1);
          OneChoiceMore(was, choices, i, j);
          choices := choices[i := j];
          items[i], items[j] := items[j], items[i];
        }
        OneChoiceMore(was, choices, 0, 0);
        assert choices[0 := 0] == choices;
      }
      AfterPermutes(was, choices, 0);
    }
  }
}
