/** Names with counts, largest count first and ties alphabetical: the order both the graph's
    neighbour lists and the segments' entity summaries are cut in. */
module Ranks {
  import opened Lists
  import opened Sorting

  predicate LexLeq(a: string, b: string) {
    a == "" || (b != "" && (a[0] < b[0] || (a[0] == b[0] && LexLeq(a[1..], b[1..]))))
  }

  lemma {:induction false} LexTotal(a: string, b: string)
    ensures LexLeq(a, b) || LexLeq(b, a)
    ensures LexLeq(a, b) && LexLeq(b, a) ==> a == b
  {
    if a != "" && b != "" && a[0] == b[0] {
      LexTotal(a[1..], b[1..]);
      assert a == [a[0]] + a[1..] && b == [b[0]] + b[1..];
    }
  }

  lemma {:induction false} LexTransitive(a: string, b: string, c: string)
    requires LexLeq(a, b) && LexLeq(b, c)
    ensures LexLeq(a, c)
  {
    if a != "" && a[0] == b[0] == c[0] {
      LexTransitive(a[1..], b[1..], c[1..]);
    }
  }

  type Count = (string, nat)

  const RANK: (Count, Count) -> bool := (x: Count, y: Count) => x.1 > y.1 || (x.1 == y.1 && LexLeq(x.0, y.0))

  lemma RankLinear()
    ensures Linear(RANK)
  {
    forall x, y ensures RANK(x, y) || RANK(y, x) {
      LexTotal(x.0, y.0);
    }
    forall x, y | RANK(x, y) && RANK(y, x) ensures x == y {
      LexTotal(x.0, y.0);
    }
    forall x, y, z | RANK(x, y) && RANK(y, z) ensures RANK(x, z) {
      if x.1 == z.1 {
        LexTransitive(x.0, y.0, z.0);
      }
    }
  }

  function CountsOf(counts: map<string, nat>): set<Count> {
    set name | name in counts :: (name, counts[name])
  }

  function NamesOf(list: seq<Count>): (names: seq<string>)
    ensures |names| == |list| && forall i :: 0 <= i < |list| ==> names[i] == list[i].0
  {
    if list == [] then [] else NamesOf(list[..|list| - 1]) + [list[|list| - 1].0]
  }

  // `list` is the `limit` best ranked of `counts`, best first.
  ghost predicate IsStrongest(counts: map<string, nat>, limit: nat, list: seq<Count>) {
    && |list| <= limit
    && SortedBy(list, RANK)
    && (forall i :: 0 <= i < |list| ==> list[i].0 in counts && counts[list[i].0] == list[i].1)
    && (forall i, j :: 0 <= i < j < |list| ==> list[i].0 != list[j].0)
    && (forall name :: name in counts ==>
          || (name, counts[name]) in list
          || (|list| == limit && forall i :: 0 <= i < limit ==> RANK(list[i], (name, counts[name]))))
  }

  lemma OneMoreCount(done: map<string, nat>, name: string, count: nat)
    requires name !in done
    ensures multiset(CountsOf(done[name := count])) == multiset(CountsOf(done)) + multiset{(name, count)}
  {
    var more := done[name := count];
    assert (name, count) !in CountsOf(done);
    forall e ensures e in CountsOf(more) <==> e in CountsOf(done) || e == (name, count) {
      assert e in CountsOf(done) ==> e.0 in more && more[e.0] == e.1;
      assert name in more && more[name] == count;
    }
    assert CountsOf(more) == CountsOf(done) + {(name, count)};
  }

  // The set as a list, in no particular order.
  method Listing(counts: map<string, nat>) returns (list: seq<Count>)
    ensures multiset(list) == multiset(CountsOf(counts))
  {
    var left := counts.Keys;
    list := [];
    ghost var done: map<string, nat> := map[];
    while left != {}
      invariant left <= counts.Keys && done == (map name | name in counts && name !in left :: counts[name])
      invariant multiset(list) == multiset(CountsOf(done))
      decreases |left|
    {
      var name :| name in left;
      left := left - {name};
      OneMoreCount(done, name, counts[name]);
      done := done[name := counts[name]];
      list := list + [(name, counts[name])];
    }
    assert done == counts;
  }

  method Strongest(counts: map<string, nat>, limit: nat) returns (list: seq<Count>)
    ensures IsStrongest(counts, limit, list)
  {
    var all := Listing(counts);
    RankLinear();
    SortPermutes(all, RANK);
    SortSorts(all, RANK);
    var ranked := Sort(all, RANK);
    CutIsStrongest(counts, limit, ranked);
    list := if limit < |ranked| then ranked[..limit] else ranked;
  }

  lemma CutIsStrongest(counts: map<string, nat>, limit: nat, ranked: seq<Count>)
    requires multiset(ranked) == multiset(CountsOf(counts)) && SortedBy(ranked, RANK)
    ensures IsStrongest(counts, limit, if limit < |ranked| then ranked[..limit] else ranked)
  {
    OnceEach(ranked, CountsOf(counts));
    forall i | 0 <= i < |ranked| ensures ranked[i].0 in counts && counts[ranked[i].0] == ranked[i].1 {
      assert ranked[i] in ranked;
    }
    forall name | name in counts ensures exists i :: 0 <= i < |ranked| && ranked[i] == (name, counts[name]) {
      assert (name, counts[name]) in CountsOf(counts);
    }
  }

  lemma RankNoTies(x: Count, y: Count)
    requires RANK(x, y) && RANK(y, x)
    ensures x == y
  {
    LexTotal(x.0, y.0);
  }

  lemma {:induction false} StrongestUnique(counts: map<string, nat>, limit: nat, list: seq<Count>, list': seq<Count>,
                                           k: nat)
    requires IsStrongest(counts, limit, list) && IsStrongest(counts, limit, list') && k <= |list| <= |list'|
    ensures list[..k] == list'[..k]
  {
    hide IsStrongest;
    if k > 0 {
      StrongestUnique(counts, limit, list, list', k - 1);
      AheadOf(counts, limit, list, list', k - 1);
      AheadOf(counts, limit, list', list, k - 1);
      RankNoTies(list[k - 1], list'[k - 1]);
      assert list[..k] == list[..k - 1] + [list[k - 1]] && list'[..k] == list'[..k - 1] + [list'[k - 1]];
    }
  }

  lemma AheadOf(counts: map<string, nat>, limit: nat, list: seq<Count>, list': seq<Count>, k: nat)
    requires IsStrongest(counts, limit, list) && IsStrongest(counts, limit, list')
    requires k < |list| && k < |list'| && list[..k] == list'[..k]
    ensures RANK(list[k], list'[k])
  {
    hide LexLeq, IsStrongest;
    Listed(counts, limit, list', k);
    assert list[..k] == list'[..k];
    NotBehind(counts, limit, list, list'[k], k);
  }

  lemma Listed(counts: map<string, nat>, limit: nat, list: seq<Count>, k: nat)
    requires IsStrongest(counts, limit, list) && k < |list|
    ensures list[k].0 in counts && counts[list[k].0] == list[k].1 && list[k] !in list[..k]
  {
    hide LexLeq;
  }

  lemma InPrefix(list: seq<Count>, j: nat, k: nat)
    requires j < k <= |list|
    ensures list[j] in list[..k]
  {
    assert list[..k][j] == list[j];
  }

  // What is not among the first k ranks no better than what stands at k.
  lemma NotBehind(counts: map<string, nat>, limit: nat, list: seq<Count>, e: Count, k: nat)
    requires IsStrongest(counts, limit, list) && k < |list|
    requires e.0 in counts && counts[e.0] == e.1 && e !in list[..k]
    ensures RANK(list[k], e)
  {
    LexTotal(e.0, e.0);
    hide LexLeq;
    if e in list {
      var j :| 0 <= j < |list| && list[j] == e;
      if j < k {
        InPrefix(list, j, k);
      }
    }
  }

  lemma AsManyNames(list: seq<Count>)
    requires forall i, j :: 0 <= i < j < |list| ==> list[i].0 != list[j].0
    ensures |set e | e in list :: e.0| == |list|
  {
    ListSize(NamesOf(list));
    var names := NamesOf(list);
    forall name ensures name in names <==> exists e :: e in list && e.0 == name {
      if name in names {
        var i :| 0 <= i < |names| && names[i] == name;
        assert list[i].0 == name;
      }
      if e :| e in list && e.0 == name {
        var i :| 0 <= i < |list| && list[i] == e;
        assert names[i] == name;
      }
    }
    assert (set e | e in list :: e.0) == Elements(names);
  }

  lemma StrongestLength(counts: map<string, nat>, limit: nat, list: seq<Count>)
    requires IsStrongest(counts, limit, list)
    ensures |list| == if |counts| < limit then |counts| else limit
  {
    AsManyNames(list);
    var names := set e | e in list :: e.0;
    assert names <= counts.Keys by {
      forall name | name in names ensures name in counts {
        var i :| 0 <= i < |list| && list[i].0 == name;
      }
    }
    SubsetSize(names, counts.Keys);
    assert |counts| == |counts.Keys|;
    if |list| < limit {
      forall name | name in counts ensures name in names {
        assert (name, counts[name]) in list;
      }
      assert names == counts.Keys;
    }
  }

  // There is one such list.
  lemma StrongestIsOne(counts: map<string, nat>, limit: nat, list: seq<Count>, list': seq<Count>)
    requires IsStrongest(counts, limit, list) && IsStrongest(counts, limit, list')
    ensures list == list'
  {
    StrongestLength(counts, limit, list);
    StrongestLength(counts, limit, list');
    StrongestUnique(counts, limit, list, list', |list|);
    hide IsStrongest;
    assert list[..|list|] == list && list'[..|list'|] == list';
  }
}
