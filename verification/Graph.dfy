/** The entity graph and its capped snapshot around one entity. */
module EntityGraphs {
  import opened Lists
  import opened Ranks

  datatype Stat = Stat(kind: string, turns: nat, firstTs: int, lastTs: int)

  // Undirected edges, kept once under the lexically smaller end.
  datatype Graph = Graph(stats: map<string, Stat>, edges: map<(string, string), nat>)

  ghost predicate WellFormed(g: Graph) {
    forall e :: e in g.edges ==> e.0 != e.1 && LexLeq(e.0, e.1)
  }

  function Ends(g: Graph, key: string): set<string> {
    (set e | e in g.edges && e.0 == key :: e.1) + (set e | e in g.edges && e.1 == key :: e.0)
  }

  // The other ends of an entity's edges, with the turns each is shared in.
  function Neighbours(g: Graph, key: string): map<string, nat> {
    map other | other in Ends(g, key) ::
      if (key, other) in g.edges then g.edges[(key, other)] else g.edges[(other, key)]
  }

  lemma NeighboursMutual(g: Graph, a: string, b: string)
    requires WellFormed(g)
    ensures b in Neighbours(g, a) <==> a in Neighbours(g, b)
    ensures b in Neighbours(g, a) ==> a != b && Neighbours(g, a)[b] == Neighbours(g, b)[a]
  {
    LexTotal(a, b);
    assert b in Ends(g, a) <==> (a, b) in g.edges || (b, a) in g.edges by {
      assert (a, b) in g.edges ==> (a, b).1 in Ends(g, a);
      assert (b, a) in g.edges ==> (b, a).0 in Ends(g, a);
    }
    assert a in Ends(g, b) <==> (a, b) in g.edges || (b, a) in g.edges by {
      assert (a, b) in g.edges ==> (a, b).0 in Ends(g, b);
      assert (b, a) in g.edges ==> (b, a).1 in Ends(g, b);
    }
  }

  predicate Linked(g: Graph, minWeight: nat, a: string, b: string) {
    b in Neighbours(g, a) && Neighbours(g, a)[b] >= minWeight
  }

  // --- the neighbourhood --------------------------------------------------

  ghost function Names(g: Graph): set<string> {
    (set e | e in g.edges :: e.0) + (set e | e in g.edges :: e.1)
  }

  // The entities within `hops` steps along edges of at least the weight.
  ghost function Within(g: Graph, focus: string, minWeight: nat, hops: nat): set<string> {
    if hops == 0 then {focus}
    else
      var near := Within(g, focus, minWeight, hops - 1);
      near + set b | b in Names(g) && exists a :: a in near && Linked(g, minWeight, a, b)
  }

  lemma StepWithin(g: Graph, focus: string, minWeight: nat, hops: nat, a: string, b: string)
    requires a in Within(g, focus, minWeight, hops) && Linked(g, minWeight, a, b)
    ensures b in Within(g, focus, minWeight, hops + 1)
  {
    if e :| e in g.edges && (e == (a, b) || e == (b, a)) {
      assert e.0 in Names(g) && e.1 in Names(g);
    }
  }

  lemma {:induction false} WithinGrows(g: Graph, focus: string, minWeight: nat, hops: nat, more: nat)
    requires hops <= more
    ensures Within(g, focus, minWeight, hops) <= Within(g, focus, minWeight, more)
    decreases more
  {
    if hops < more {
      WithinGrows(g, focus, minWeight, hops, more - 1);
    }
  }

  // What a capped exploration answers. The flag is exact; without it the answer is the
  // whole neighbourhood; with it, nothing left out is closer than anything kept.
  ghost predicate IsNeighbourhood(g: Graph, focus: string, minWeight: nat, hops: nat, limit: nat, keys: seq<string>,
                                  truncated: bool) {
    var all := Within(g, focus, minWeight, hops);
    && Distinct(keys)
    && (forall k :: k in keys ==> k in all)
    && |keys| <= limit
    && (truncated <==> |all| > limit)
    && (!truncated ==> forall k :: k in all ==> k in keys)
    && (truncated ==> |keys| == limit)
    && (forall d: nat, k, o :: k in keys && o !in keys && d <= hops && o in Within(g, focus, minWeight, d) ==>
      k in Within(g, focus, minWeight, d))
    && (forall d: nat, i, j :: 0 <= i < j < |keys| && keys[j] in Within(g, focus, minWeight, d) ==>
      keys[i] in Within(g, focus, minWeight, d))
  }

  // --- breadth first ------------------------------------------------------

  ghost predicate Has(keys: seq<string>, depths: seq<nat>, name: string, depth: nat) {
    exists j :: 0 <= j < |keys| && j < |depths| && keys[j] == name && depths[j] <= depth
  }

  // The entities kept so far, each once, with their exact distances in order.
  ghost predicate Placed(g: Graph, focus: string, minWeight: nat, hops: nat, keys: seq<string>, depths: seq<nat>,
                         popped: nat) {
    && |keys| == |depths| && popped <= |keys|
    && (forall i, j :: 0 <= i < j < |keys| ==> keys[i] != keys[j] && depths[i] <= depths[j])
    && (forall i :: 0 <= i < |keys| ==> depths[i] <= hops && keys[i] in Within(g, focus, minWeight, depths[i]))
    && (forall i, d: nat :: 0 <= i < |keys| && keys[i] in Within(g, focus, minWeight, d) ==> depths[i] <= d)
    && (popped < |keys| ==> forall j :: 0 <= j < |keys| ==> depths[j] <= depths[popped] + 1)
  }

  // A walk under way: the first `popped` have been expanded.
  ghost predicate Walk(g: Graph, focus: string, minWeight: nat, hops: nat, keys: seq<string>, depths: seq<nat>,
                       popped: nat) {
    && Placed(g, focus, minWeight, hops, keys, depths, popped)
    && Has(keys, depths, focus, 0)
    && (forall i :: 0 <= i < popped && depths[i] < hops ==> Expanded(g, minWeight, keys, depths, i))
  }

  ghost predicate Expanded(g: Graph, minWeight: nat, keys: seq<string>, depths: seq<nat>, i: nat)
    requires i < |keys| && i < |depths|
  {
    forall b :: Linked(g, minWeight, keys[i], b) ==> Has(keys, depths, b, depths[i] + 1)
  }

  ghost predicate Kept(g: Graph, focus: string, minWeight: nat, keys: seq<string>, depths: seq<nat>, d: nat) {
    forall b :: b in Within(g, focus, minWeight, d) ==> Has(keys, depths, b, d)
  }

  lemma ExpandedHas(g: Graph, minWeight: nat, keys: seq<string>, depths: seq<nat>, i: nat, b: string)
    requires i < |keys| && i < |depths| && Expanded(g, minWeight, keys, depths, i) && Linked(g, minWeight, keys[i], b)
    ensures Has(keys, depths, b, depths[i] + 1)
  {
  }

  lemma LayerStep(g: Graph, focus: string, minWeight: nat, hops: nat, keys: seq<string>, depths: seq<nat>, popped: nat,
                  d: nat, a: string, b: string)
    requires Walk(g, focus, minWeight, hops, keys, depths, popped)
    requires 0 < d <= hops && (popped < |keys| ==> d <= depths[popped])
    requires Has(keys, depths, a, d - 1) && Linked(g, minWeight, a, b)
    ensures Has(keys, depths, b, d)
  {
    hide Within, Linked, Expanded;
    var i :| 0 <= i < |keys| && keys[i] == a && depths[i] <= d - 1;
    ExpandedHas(g, minWeight, keys, depths, i, b);
  }

  // Every layer up to the one being expanded has been kept whole.
  lemma {:induction false} LayersKept(g: Graph, focus: string, minWeight: nat, hops: nat, keys: seq<string>,
                                      depths: seq<nat>, popped: nat, d: nat)
    requires Walk(g, focus, minWeight, hops, keys, depths, popped)
    requires d <= hops && (popped < |keys| ==> d <= depths[popped])
    ensures Kept(g, focus, minWeight, keys, depths, d)
  {
    if d > 0 {
      LayersKept(g, focus, minWeight, hops, keys, depths, popped, d - 1);
      forall b | b in Within(g, focus, minWeight, d) ensures Has(keys, depths, b, d) {
        if b in Within(g, focus, minWeight, d - 1) {
          assert Has(keys, depths, b, d - 1);
        } else {
          var a :| a in Within(g, focus, minWeight, d - 1) && Linked(g, minWeight, a, b);
          LayerStep(g, focus, minWeight, hops, keys, depths, popped, d, a, b);
        }
      }
    }
  }

  lemma HasGrows(keys: seq<string>, depths: seq<nat>, b: string, depth: nat)
    requires |keys| == |depths|
    ensures forall name, d :: Has(keys, depths, name, d) ==> Has(keys + [b], depths + [depth], name, d)
    ensures Has(keys + [b], depths + [depth], b, depth)
  {
    forall name, d | Has(keys, depths, name, d) ensures Has(keys + [b], depths + [depth], name, d) {
      var j :| 0 <= j < |keys| && keys[j] == name && depths[j] <= d;
      assert (keys + [b])[j] == name && (depths + [depth])[j] <= d;
    }
    assert (keys + [b])[|keys|] == b && (depths + [depth])[|keys|] == depth;
  }

  lemma ExpandedGrows(g: Graph, minWeight: nat, keys: seq<string>, depths: seq<nat>, i: nat, b: string, depth: nat)
    requires i < |keys| == |depths| && Expanded(g, minWeight, keys, depths, i)
    ensures Expanded(g, minWeight, keys + [b], depths + [depth], i)
  {
    HasGrows(keys, depths, b, depth);
  }

  lemma NotCloser(g: Graph, focus: string, minWeight: nat, hops: nat, keys: seq<string>, depths: seq<nat>, popped: nat,
                  b: string)
    requires Walk(g, focus, minWeight, hops, keys, depths, popped)
    requires popped < |keys| && b !in keys
    ensures forall d: nat :: b in Within(g, focus, minWeight, d) ==> d > depths[popped]
  {
    forall d: nat | d <= depths[popped] ensures b !in Within(g, focus, minWeight, d) {
      LayersKept(g, focus, minWeight, hops, keys, depths, popped, d);
    }
  }

  lemma PlaceOne(g: Graph, focus: string, minWeight: nat, hops: nat, keys: seq<string>, depths: seq<nat>, popped: nat,
                 b: string)
    requires Placed(g, focus, minWeight, hops, keys, depths, popped)
    requires popped < |keys| && depths[popped] < hops && b !in keys
      && b in Within(g, focus, minWeight, depths[popped] + 1)
    requires forall d: nat :: b in Within(g, focus, minWeight, d) ==> d > depths[popped]
    ensures Placed(g, focus, minWeight, hops, keys + [b], depths + [depths[popped] + 1], popped)
  {
    hide Within;
    var keys', depths' := keys + [b], depths + [depths[popped] + 1];
    forall i, d: nat | 0 <= i < |keys'| && keys'[i] in Within(g, focus, minWeight, d) ensures depths'[i] <= d {
      assert i < |keys| ==> keys'[i] == keys[i];
    }
  }

  // A new neighbour of the entity being expanded is one step further out.
  lemma KeepOne(g: Graph, focus: string, minWeight: nat, hops: nat, keys: seq<string>, depths: seq<nat>, popped: nat,
                b: string)
    requires Walk(g, focus, minWeight, hops, keys, depths, popped)
    requires popped < |keys| && depths[popped] < hops && Linked(g, minWeight, keys[popped], b) && b !in keys
    ensures Walk(g, focus, minWeight, hops, keys + [b], depths + [depths[popped] + 1], popped)
    ensures forall name, d :: Has(keys, depths, name, d) ==> Has(keys + [b], depths + [depths[popped] + 1], name, d)
    ensures Has(keys + [b], depths + [depths[popped] + 1], b, depths[popped] + 1)
  {
    hide Within, Linked, Has, Expanded;
    var d := depths[popped];
    StepWithin(g, focus, minWeight, d, keys[popped], b);
    NotCloser(g, focus, minWeight, hops, keys, depths, popped, b);
    HasGrows(keys, depths, b, d + 1);
    PlaceOne(g, focus, minWeight, hops, keys, depths, popped, b);
    hide Placed;
    forall i | 0 <= i < popped && depths[i] < hops ensures Expanded(g, minWeight, keys + [b], depths + [d + 1], i) {
      ExpandedGrows(g, minWeight, keys, depths, i, b, d + 1);
    }
    assert forall i :: 0 <= i < popped ==> (depths + [d + 1])[i] == depths[i];
  }

  // A neighbour list cut at the cap hides nothing from a walk that is not full: had it been
  // cut, the cap's worth of entities would be kept besides the one expanded.
  lemma CutHidesNothing(g: Graph, minWeight: nat, limit: nat, key: string, list: seq<Count>, keys: seq<string>,
                        b: string)
    requires WellFormed(g) && IsStrongest(Neighbours(g, key), limit, list)
    requires key in keys && |keys| <= limit
    requires forall i :: 0 <= i < |list| && list[i].1 >= minWeight ==> list[i].0 in keys
    requires Linked(g, minWeight, key, b)
    ensures (b, Neighbours(g, key)[b]) in list
  {
    if (b, Neighbours(g, key)[b]) !in list {
      FullList(Neighbours(g, key), limit, list, b);
      NotItself(g, limit, key, list);
      AsManyNames(list);
      hide Neighbours, IsStrongest;
      TooManyNames(set e | e in list :: e.0, key, keys);
    }
  }

  // What a cut list leaves out weighs no more than anything in it.
  lemma FullList(counts: map<string, nat>, limit: nat, list: seq<Count>, b: string)
    requires IsStrongest(counts, limit, list) && b in counts && (b, counts[b]) !in list
    ensures |list| == limit
    ensures forall i :: 0 <= i < |list| ==> list[i].1 >= counts[b]
    ensures forall i, j :: 0 <= i < j < |list| ==> list[i].0 != list[j].0
  {
    forall i | 0 <= i < limit ensures list[i].1 >= counts[b] {
      assert RANK(list[i], (b, counts[b]));
    }
  }

  lemma NotItself(g: Graph, limit: nat, key: string, list: seq<Count>)
    requires WellFormed(g) && IsStrongest(Neighbours(g, key), limit, list)
    ensures forall e :: e in list ==> e.0 != key
  {
    forall e | e in list ensures e.0 != key {
      var i :| 0 <= i < |list| && list[i] == e;
      NeighboursMutual(g, key, e.0);
    }
  }

  lemma TooManyNames(names: set<string>, key: string, keys: seq<string>)
    requires key !in names && key in keys && forall name :: name in names ==> name in keys
    ensures |names| < |keys|
  {
    var all := Elements(keys);
    ListSize(keys);
    assert names + {key} <= all;
    SubsetSize(names + {key}, all);
  }

  lemma WalkStarts(g: Graph, focus: string, minWeight: nat, hops: nat)
    ensures Walk(g, focus, minWeight, hops, [focus], [0], 0)
  {
    assert [focus][0] == focus;
  }

  lemma WalkPops(g: Graph, focus: string, minWeight: nat, hops: nat, keys: seq<string>, depths: seq<nat>, popped: nat)
    requires Walk(g, focus, minWeight, hops, keys, depths, popped) && popped < |keys|
    requires depths[popped] < hops ==> Expanded(g, minWeight, keys, depths, popped)
    ensures Walk(g, focus, minWeight, hops, keys, depths, popped + 1)
  {
    hide Has, Expanded, Within, Placed;
    PlacedPops(g, focus, minWeight, hops, keys, depths, popped);
  }

  lemma PlacedPops(g: Graph, focus: string, minWeight: nat, hops: nat, keys: seq<string>, depths: seq<nat>, popped: nat)
    requires Placed(g, focus, minWeight, hops, keys, depths, popped) && popped < |keys|
    ensures |keys| == |depths| && Placed(g, focus, minWeight, hops, keys, depths, popped + 1)
  {
    hide Within;
    assert popped + 1 < |keys| ==> depths[popped] <= depths[popped + 1];
  }

  // A walk with nothing left to expand is the whole neighbourhood,
  lemma WalkEnds(g: Graph, focus: string, minWeight: nat, hops: nat, limit: nat, keys: seq<string>, depths: seq<nat>)
    requires Walk(g, focus, minWeight, hops, keys, depths, |keys|) && |keys| <= limit
    ensures IsNeighbourhood(g, focus, minWeight, hops, limit, keys, false)
  {
    LayersKept(g, focus, minWeight, hops, keys, depths, |keys|, hops);
    var all := Within(g, focus, minWeight, hops);
    KeptWithin(g, focus, minWeight, hops, keys, depths, |keys|);
    forall k | k in all ensures k in keys {
      assert Has(keys, depths, k, hops);
    }
    ListSize(keys);
    assert all == Elements(keys);
    KeptInOrder(g, focus, minWeight, hops, keys, depths, |keys|);
    forall d: nat | d <= hops ensures Within(g, focus, minWeight, d) <= all {
      WithinGrows(g, focus, minWeight, d, hops);
    }
  }

  lemma NothingCloser(g: Graph, focus: string, minWeight: nat, hops: nat, keys: seq<string>, depths: seq<nat>,
                      popped: nat, d: nat, k: string, o: string)
    requires Walk(g, focus, minWeight, hops, keys, depths, popped) && popped < |keys|
    requires k in keys && o !in keys && o in Within(g, focus, minWeight, d)
    ensures k in Within(g, focus, minWeight, d)
  {
    hide Within, Expanded, Has;
    NotCloser(g, focus, minWeight, hops, keys, depths, popped, o);
    var i :| 0 <= i < |keys| && keys[i] == k;
    WithinGrows(g, focus, minWeight, depths[i], d);
  }

  lemma KeptWithin(g: Graph, focus: string, minWeight: nat, hops: nat, keys: seq<string>, depths: seq<nat>, popped: nat)
    requires Walk(g, focus, minWeight, hops, keys, depths, popped)
    ensures forall k :: k in keys ==> k in Within(g, focus, minWeight, hops)
  {
    forall k | k in keys ensures k in Within(g, focus, minWeight, hops) {
      var i :| 0 <= i < |keys| && keys[i] == k;
      WithinGrows(g, focus, minWeight, depths[i], hops);
    }
  }

  // and one stopped at the cap has left something out, no closer than what it keeps.
  lemma WalkStops(g: Graph, focus: string, minWeight: nat, hops: nat, limit: nat, keys: seq<string>, depths: seq<nat>,
                  popped: nat, b: string)
    requires Walk(g, focus, minWeight, hops, keys, depths, popped) && popped < |keys| == limit
    requires depths[popped] < hops && Linked(g, minWeight, keys[popped], b) && b !in keys
    ensures IsNeighbourhood(g, focus, minWeight, hops, limit, keys, true)
  {
    hide Linked, Within, Expanded, Has, Names;
    var all := Within(g, focus, minWeight, hops);
    KeptWithin(g, focus, minWeight, hops, keys, depths, popped);
    StepWithin(g, focus, minWeight, depths[popped], keys[popped], b);
    WithinGrows(g, focus, minWeight, depths[popped] + 1, hops);
    ListSize(keys);
    var kept := Elements(keys);
    SubsetSize(kept + {b}, all);
    KeptInOrder(g, focus, minWeight, hops, keys, depths, popped);
    forall d: nat, k, o | k in keys && o !in keys && o in Within(g, focus, minWeight, d)
      ensures k in Within(g, focus, minWeight, d)
    {
      NothingCloser(g, focus, minWeight, hops, keys, depths, popped, d, k, o);
    }
  }

  lemma KeptInOrder(g: Graph, focus: string, minWeight: nat, hops: nat, keys: seq<string>, depths: seq<nat>,
                    popped: nat)
    requires Walk(g, focus, minWeight, hops, keys, depths, popped)
    ensures forall d: nat, i, j :: 0 <= i < j < |keys| && keys[j] in Within(g, focus, minWeight, d) ==>
      keys[i] in Within(g, focus, minWeight, d)
  {
    forall d: nat, i, j | 0 <= i < j < |keys| && keys[j] in Within(g, focus, minWeight, d)
      ensures keys[i] in Within(g, focus, minWeight, d)
    {
      WithinGrows(g, focus, minWeight, depths[i], d);
    }
  }

  // The queue holds what has been kept and not yet expanded, with its distances.
  ghost predicate Queued(keys: seq<string>, depths: seq<nat>, first: nat, queue: seq<(string, nat)>) {
    && |keys| == |depths| && |queue| == |keys| - first
    && forall i :: 0 <= i < |queue| ==> queue[i] == (keys[first + i], depths[first + i])
  }

  // What was seen before is at most one step further than the entity being expanded.
  lemma SeenHas(g: Graph, focus: string, minWeight: nat, hops: nat, keys: seq<string>, depths: seq<nat>, popped: nat,
                b: string)
    requires Walk(g, focus, minWeight, hops, keys, depths, popped) && popped < |keys| && b in keys
    ensures Has(keys, depths, b, depths[popped] + 1)
  {
    var j :| 0 <= j < |keys| && keys[j] == b;
  }

  lemma ExpandedAll(g: Graph, focus: string, minWeight: nat, hops: nat, limit: nat, keys: seq<string>, depths: seq<nat>,
                    popped: nat, list: seq<Count>)
    requires WellFormed(g) && Walk(g, focus, minWeight, hops, keys, depths, popped) && popped < |keys| <= limit
    requires IsStrongest(Neighbours(g, keys[popped]), limit, list)
    requires forall i :: 0 <= i < |list| && list[i].1 >= minWeight ==> Has(keys, depths, list[i].0, depths[popped] + 1)
    ensures Expanded(g, minWeight, keys, depths, popped)
  {
    var key := keys[popped];
    forall i | 0 <= i < |list| && list[i].1 >= minWeight ensures list[i].0 in keys {
      assert Has(keys, depths, list[i].0, depths[popped] + 1);
    }
    forall b | Linked(g, minWeight, key, b) ensures Has(keys, depths, b, depths[popped] + 1) {
      CutHidesNothing(g, minWeight, limit, key, list, keys, b);
      var i :| 0 <= i < |list| && list[i] == (b, Neighbours(g, key)[b]);
    }
  }

  // Expand one entity: its strongest neighbours join until the cap is reached.
  method Expand(g: Graph, ghost focus: string, limit: nat, minWeight: nat, hops: nat, key: string, depth: nat,
                keys: seq<string>, seen: set<string>, queue: seq<(string, nat)>, ghost depths: seq<nat>,
                ghost popped: nat)
    returns (keys': seq<string>, seen': set<string>, queue': seq<(string, nat)>, ghost depths': seq<nat>, full: bool)
    requires WellFormed(g) && Walk(g, focus, minWeight, hops, keys, depths, popped) && popped < |keys| <= limit
    requires key == keys[popped] && depth == depths[popped] < hops
    requires seen == (set k | k in keys) && Queued(keys, depths, popped + 1, queue)
    ensures full ==> IsNeighbourhood(g, focus, minWeight, hops, limit, keys', true)
    ensures !full ==>
      && Walk(g, focus, minWeight, hops, keys', depths', popped + 1) && popped < |keys'| <= limit
      && seen' == (set k | k in keys') && Queued(keys', depths', popped + 1, queue')
  {
    hide Linked, Within, Has, Expanded, Neighbours, IsNeighbourhood;
    keys', seen', queue', depths', full := keys, seen, queue, depths, false;
    var list := Strongest(Neighbours(g, key), limit);
    for next := 0 to |list|
      invariant !full && Walk(g, focus, minWeight, hops, keys', depths', popped) && popped < |keys'| <= limit
      invariant key == keys'[popped] && depth == depths'[popped]
      invariant seen' == (set k | k in keys') && Queued(keys', depths', popped + 1, queue')
      invariant forall i :: 0 <= i < next && list[i].1 >= minWeight ==> Has(keys', depths', list[i].0, depth + 1)
    {
      var (other, weight) := list[next];
      if weight >= minWeight {
        ListedIsLinked(g, minWeight, limit, key, list, next);
        if other in seen' {
          SeenHas(g, focus, minWeight, hops, keys', depths', popped, other);
        } else {
          seen' := seen' + {other};
          if |keys'| >= limit {
            WalkStops(g, focus, minWeight, hops, limit, keys', depths', popped, other);
            return keys', seen', queue', depths', true;
          }
          KeepOne(g, focus, minWeight, hops, keys', depths', popped, other);
          keys', queue', depths' := keys' + [other], queue' + [(other, depth + 1)], depths' + [depth + 1];
        }
      }
    }
    ExpandedAll(g, focus, minWeight, hops, limit, keys', depths', popped, list);
    WalkPops(g, focus, minWeight, hops, keys', depths', popped);
  }

  lemma ListedIsLinked(g: Graph, minWeight: nat, limit: nat, key: string, list: seq<Count>, i: nat)
    requires IsStrongest(Neighbours(g, key), limit, list) && i < |list| && list[i].1 >= minWeight
    ensures Linked(g, minWeight, key, list[i].0)
  {
  }

  // Breadth first from the focus, the strongest neighbours first, at most `limit` in all.
  method Explore(g: Graph, focus: string, limit: nat, minWeight: nat, hops: nat)
    returns (keys: seq<string>, truncated: bool)
    requires WellFormed(g) && limit > 0
    ensures focus !in g.stats ==> keys == [] && !truncated
    ensures focus in g.stats ==> IsNeighbourhood(g, focus, minWeight, hops, limit, keys, truncated)
  {
    hide Linked, Within, Has, Expanded, Placed, Neighbours, IsNeighbourhood;
    keys, truncated := [], false;
    var seen: set<string>, queue: seq<(string, nat)> := {}, [];
    ghost var depths: seq<nat>, popped: nat := [], 0;
    if focus in g.stats {
      seen, keys, queue := {focus}, [focus], [(focus, 0)];
      depths := [0];
      WalkStarts(g, focus, minWeight, hops);
    }
    while queue != []
      invariant |keys| <= limit && !truncated && popped <= |keys| == |depths|
      invariant if focus in g.stats then Walk(g, focus, minWeight, hops, keys, depths, popped) else keys == []
      invariant seen == (set k | k in keys) && Queued(keys, depths, popped, queue)
      decreases limit - popped
    {
      var (key, depth) := queue[0];
      queue := queue[1..];
      if depth < hops {
        keys, seen, queue, depths, truncated :=
          Expand(g, focus, limit, minWeight, hops, key, depth, keys, seen, queue, depths, popped);
        if truncated {
          return;
        }
      } else {
        WalkPops(g, focus, minWeight, hops, keys, depths, popped);
      }
      popped := popped + 1;
    }
    if focus in g.stats {
      WalkEnds(g, focus, minWeight, hops, limit, keys, depths);
    }
  }
}
