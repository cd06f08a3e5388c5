/** How much two lists without repeats share, counted by lists and by sets. */
module Overlaps {
  import opened Lists

  // How many names of `a` are in `b`.
  function Shared(a: seq<string>, b: seq<string>): nat {
    if a == [] then 0 else Shared(a[..|a| - 1], b) + if a[|a| - 1] in b then 1 else 0
  }

  lemma OneMoreName(a: set<string>, b: set<string>, name: string)
    requires name !in a
    ensures |(a + {name}) * b| == |a * b| + if name in b then 1 else 0
    ensures |(a + {name}) + b| == |a + b| + if name in b then 0 else 1
  {
    assert (a + {name}) * b == if name in b then a * b + {name} else a * b;
    assert (a + {name}) + b == if name in b then a + b else (a + b) + {name};
  }

  lemma NamesSplit(a: seq<string>, b: seq<string>)
    requires a != [] && Distinct(a)
    ensures var init, last := a[..|a| - 1], a[|a| - 1];
      && Distinct(init) && last !in Elements(init) && Elements(a) == Elements(init) + {last}
      && (last in b <==> last in Elements(b))
  {
    assert a == a[..|a| - 1] + [a[|a| - 1]];
  }

  lemma {:induction false} SharedCounts(a: seq<string>, b: seq<string>)
    requires Distinct(a) && Distinct(b)
    ensures Shared(a, b) == |Elements(a) * Elements(b)|
    ensures |a| + |b| - Shared(a, b) == |Elements(a) + Elements(b)|
    ensures |a| + |b| - Shared(a, b) > 0 || (a == [] && b == [])
  {
    ListSize(b);
    if a == [] {
      assert Elements(a) == {};
      assert Elements(a) * Elements(b) == {} && Elements(a) + Elements(b) == Elements(b);
    } else {
      var init, last := a[..|a| - 1], a[|a| - 1];
      NamesSplit(a, b);
      SharedCounts(init, b);
      hide Elements, Distinct;
      OneMoreName(Elements(init), Elements(b), last);
      assert last in Elements(a) + Elements(b);
    }
  }
}
