/** The snapshot the graph page asks for: which entities, which edges, and whether the cap cut it. */
module GraphSnapshots {
  import opened Optional
  import opened Lists
  import opened Ranks
  import opened Sorting
  import opened EntityGraphs

  const GRAPH_MAX_NODES: nat := 2000
  const GRAPH_MAX_HOPS: nat := 3

  datatype GraphOptions = GraphOptions(
    limit: Option<nat>, minWeight: Option<nat>, focus: Option<string>, hops: Option<nat>, kind: Option<string>)
  {
    function Limit(): nat {
      var n := limit.GetOr(200);
      if n < 1 then 1 else if n > GRAPH_MAX_NODES then GRAPH_MAX_NODES else n
    }

    function MinWeight(): nat {
      var n := minWeight.GetOr(1);
      if n < 1 then 1 else n
    }

    function Hops(): nat {
      var n := hops.GetOr(1);
      if n < GRAPH_MAX_HOPS then n else GRAPH_MAX_HOPS
    }
  }

  datatype Node = Node(entity: string, kind: string, turns: nat, degree: nat, firstTs: int, lastTs: int)

  datatype Edge = Edge(a: string, b: string, turns: nat)

  // Heaviest first, ties by the two ends.
  const EDGE_ORDER: (Edge, Edge) -> bool := (x: Edge, y: Edge) =>
    x.turns > y.turns || (x.turns == y.turns && (if x.a == y.a then LexLeq(x.b, y.b) else LexLeq(x.a, y.a)))

  lemma EdgeOrderIsOne()
    ensures Preorder(EDGE_ORDER)
  {
    forall x, y ensures EDGE_ORDER(x, y) || EDGE_ORDER(y, x) {
      LexTotal(x.a, y.a);
      LexTotal(x.b, y.b);
    }
    forall x, y, z | EDGE_ORDER(x, y) && EDGE_ORDER(y, z) ensures EDGE_ORDER(x, z) {
      if x.turns == y.turns == z.turns {
        if x.a == y.a == z.a {
          LexTransitive(x.b, y.b, z.b);
        } else {
          LexTotal(x.a, y.a);
          LexTotal(y.a, z.a);
          if x.a != y.a && y.a != z.a {
            LexTransitive(x.a, y.a, z.a);
          }
        }
      }
    }
  }

  // --- which edges --------------------------------------------------------

  // Among the heaviest edges of its smaller end, with both ends kept.
  ghost predicate Shown(g: Graph, keys: seq<string>, minWeight: nat, e: Edge) {
    && e.a in keys && e.a in g.stats
    && Offered(g, keys, minWeight, e)
  }

  ghost predicate Offered(g: Graph, keys: seq<string>, minWeight: nat, e: Edge) {
    && e.b in keys && e.a != e.b && LexLeq(e.a, e.b) && e.turns >= minWeight
    && exists list :: IsStrongest(Neighbours(g, e.a), GRAPH_MAX_NODES, list) && (e.b, e.turns) in list
  }

  // No edge between two kept entities is missing unless an entity has more than 2000.
  lemma ShownUnlessCrowded(g: Graph, keys: seq<string>, minWeight: nat, a: string, b: string)
    requires a in keys && a in g.stats && b in keys && a != b && LexLeq(a, b)
    requires |Neighbours(g, a)| <= GRAPH_MAX_NODES
    ensures Linked(g, minWeight, a, b) <==> exists turns :: Shown(g, keys, minWeight, Edge(a, b, turns))
  {
    var counts := Neighbours(g, a);
    if Linked(g, minWeight, a, b) {
      var list := StrongestExists(counts, GRAPH_MAX_NODES);
      StrongestLength(counts, GRAPH_MAX_NODES, list);
      AllListed(counts, GRAPH_MAX_NODES, list, b);
      assert Shown(g, keys, minWeight, Edge(a, b, counts[b]));
    }
  }

  lemma AllListed(counts: map<string, nat>, limit: nat, list: seq<Count>, name: string)
    requires IsStrongest(counts, limit, list) && |counts| <= limit && name in counts
    ensures (name, counts[name]) in list
  {
    AsManyNames(list);
    var names := set e | e in list :: e.0;
    StrongestLength(counts, limit, list);
    forall n | n in names ensures n in counts {
      var i :| 0 <= i < |list| && list[i].0 == n;
    }
    assert |counts| == |counts.Keys|;
    SubsetSize(names, counts.Keys);
    assert name in names;
    var i :| 0 <= i < |list| && list[i].0 == name;
  }

  lemma {:induction false} RankedExists(counts: map<string, nat>) returns (ranked: seq<Count>)
    ensures multiset(ranked) == multiset(CountsOf(counts))
    decreases |counts|
  {
    if counts == map[] {
      ranked := [];
    } else {
      var name :| name in counts;
      var rest := counts - {name};
      assert rest.Keys == counts.Keys - {name} && |counts| == |counts.Keys| && |rest| == |rest.Keys|;
      var before := RankedExists(rest);
      ranked := before + [(name, counts[name])];
      OneMoreCount(rest, name, counts[name]);
      assert rest[name := counts[name]] == counts;
    }
  }

  lemma StrongestExists(counts: map<string, nat>, limit: nat) returns (list: seq<Count>)
    ensures IsStrongest(counts, limit, list)
  {
    var all := RankedExists(counts);
    RankLinear();
    SortPermutes(all, RANK);
    SortSorts(all, RANK);
    var ranked := Sort(all, RANK);
    CutIsStrongest(counts, limit, ranked);
    list := if limit < |ranked| then ranked[..limit] else ranked;
  }

  // The edges listed from one entity.
  method EdgesFrom(g: Graph, key: string, keys: seq<string>, minWeight: nat) returns (edges: seq<Edge>)
    ensures forall e: Edge :: e in edges <==> e.a == key && Offered(g, keys, minWeight, e)
    ensures Distinct(edges)
  {
    hide IsStrongest, Neighbours;
    var list := Strongest(Neighbours(g, key), GRAPH_MAX_NODES);
    edges := [];
    for next := 0 to |list|
      invariant forall e: Edge :: e in edges <==>
        e.a == key && e.b in keys && e.a != e.b && LexLeq(e.a, e.b) && e.turns >= minWeight
          && (e.b, e.turns) in list[..next]
      invariant Distinct(edges)
    {
      var (other, weight) := list[next];
      ListedOnce(Neighbours(g, key), GRAPH_MAX_NODES, list, next);
      assert list[..next + 1] == list[..next] + [list[next]];
      if weight >= minWeight && key != other && LexLeq(key, other) && other in keys {
        edges := edges + [Edge(key, other, weight)];
      }
    }
    assert list[..|list|] == list;
    forall e: Edge | e.a == key && Offered(g, keys, minWeight, e) ensures (e.b, e.turns) in list {
      var list' :| IsStrongest(Neighbours(g, key), GRAPH_MAX_NODES, list') && (e.b, e.turns) in list';
      StrongestIsOne(Neighbours(g, key), GRAPH_MAX_NODES, list, list');
    }
  }

  lemma ListedOnce(counts: map<string, nat>, limit: nat, list: seq<Count>, i: nat)
    requires IsStrongest(counts, limit, list) && i < |list|
    ensures list[i] !in list[..i]
  {
  }

  // --- which entities -----------------------------------------------------

  // The entities of a kind, or all, by how many turns mention them.
  function Mentioned(g: Graph, kind: Option<string>): map<string, nat> {
    map name | name in g.stats && (kind.None? || g.stats[name].kind == kind.value) :: g.stats[name].turns
  }

  // What a selection answers: the most mentioned, or the neighbourhood of the focus, with an
  // exact flag in both cases. The kind filter thins a neighbourhood after the cut.
  ghost predicate Selected(g: Graph, opts: GraphOptions, keys: seq<string>, truncated: bool) {
    match opts.focus
    case None =>
      && (truncated <==> |Mentioned(g, opts.kind)| > opts.Limit())
      && exists list :: IsStrongest(Mentioned(g, opts.kind), opts.Limit(), list) && NamesOf(list) == keys
    case Some(focus) =>
      if focus !in g.stats then keys == [] && !truncated
      else
        exists all :: IsNeighbourhood(g, focus, opts.MinWeight(), opts.Hops(), opts.Limit(), all, truncated)
                   && keys == OfKind(g, focus, opts.kind, all)
  }

  function OfKind(g: Graph, focus: string, kind: Option<string>, keys: seq<string>): seq<string> {
    if kind.None? then keys
    else if keys == [] then []
    else
      var before, last := OfKind(g, focus, kind, keys[..|keys| - 1]), keys[|keys| - 1];
      if last == focus || (last in g.stats && g.stats[last].kind == kind.value) then before + [last] else before
  }

  lemma {:induction false} OfKindMeans(g: Graph, focus: string, kind: Option<string>, keys: seq<string>)
    requires Distinct(keys)
    ensures var kept := OfKind(g, focus, kind, keys);
      && (forall k :: k in kept <==>
            k in keys && (kind.None? || k == focus || (k in g.stats && g.stats[k].kind == kind.value)))
      && Distinct(kept)
  {
    if kind.Some? && keys != [] {
      var init, last := keys[..|keys| - 1], keys[|keys| - 1];
      OfKindMeans(g, focus, kind, init);
      assert keys == init + [last] && last !in init;
    }
  }

  method Select(g: Graph, opts: GraphOptions) returns (keys: seq<string>, truncated: bool)
    requires WellFormed(g)
    ensures Selected(g, opts, keys, truncated)
    ensures Distinct(keys)
  {
    match opts.focus {
      case Some(focus) =>
        var all, cut := Explore(g, focus, opts.Limit(), opts.MinWeight(), opts.Hops());
        OfKindMeans(g, focus, opts.kind, all);
        keys, truncated := OfKind(g, focus, opts.kind, all), cut;
      case None =>
        var list := Strongest(Mentioned(g, opts.kind), opts.Limit() + 1);
        StrongestLength(Mentioned(g, opts.kind), opts.Limit() + 1, list);
        truncated := |list| > opts.Limit();
        ghost var all := list;
        if truncated {
          list := list[..opts.Limit()];
        }
        CutAgain(Mentioned(g, opts.kind), opts.Limit(), all, list);
        keys := NamesOf(list);
    }
  }

  lemma CutAgain(counts: map<string, nat>, limit: nat, all: seq<Count>, list: seq<Count>)
    requires IsStrongest(counts, limit + 1, all)
    requires list == if |all| > limit then all[..limit] else all
    ensures IsStrongest(counts, limit, list)
  {
    RankLinear();
    if |all| > limit {
      forall name | name in counts && (name, counts[name]) !in list
        ensures forall i :: 0 <= i < limit ==> RANK(list[i], (name, counts[name]))
      {
        if (name, counts[name]) in all {
          var j :| 0 <= j < |all| && all[j] == (name, counts[name]);
        }
      }
    }
  }

  // --- the snapshot -------------------------------------------------------

  datatype Snapshot = Snapshot(nodes: seq<Node>, edges: seq<Edge>, totalEntities: nat, totalEdges: nat, truncated: bool)

  function NodeOf(g: Graph, key: string): Node
    requires key in g.stats
  {
    var stat := g.stats[key];
    Node(key, stat.kind, stat.turns, |Neighbours(g, key)|, stat.firstTs, stat.lastTs)
  }

  ghost predicate Before(keys: seq<string>, x: string, y: string) {
    exists i, j :: 0 <= i < j < |keys| && keys[i] == x && keys[j] == y
  }

  method ListNodes(g: Graph, keys: seq<string>) returns (nodes: seq<Node>)
    requires Distinct(keys)
    ensures forall node :: node in nodes <==>
      node.entity in keys && node.entity in g.stats && node == NodeOf(g, node.entity)
    ensures forall i, j :: 0 <= i < j < |nodes| ==> Before(keys, nodes[i].entity, nodes[j].entity)
  {
    hide NodeOf, Before;
    nodes := [];
    for next := 0 to |keys|
      invariant forall node :: node in nodes <==>
        node.entity in keys[..next] && node.entity in g.stats && node == NodeOf(g, node.entity)
      invariant forall i, j :: 0 <= i < j < |nodes| ==> Before(keys, nodes[i].entity, nodes[j].entity)
    {
      var key := keys[next];
      assert keys[..next + 1] == keys[..next] + [key] && key !in keys[..next];
      if key in g.stats {
        NodeNames(g, key);
        forall i | 0 <= i < |nodes| ensures Before(keys, nodes[i].entity, key) {
          BeforeNext(keys, nodes[i].entity, next);
        }
        nodes := nodes + [NodeOf(g, key)];
      }
    }
    assert keys[..|keys|] == keys;
  }

  lemma BeforeNext(keys: seq<string>, x: string, next: nat)
    requires next < |keys| && x in keys[..next]
    ensures Before(keys, x, keys[next])
  {
    var i :| 0 <= i < next && keys[..next][i] == x;
  }

  method ListEdges(g: Graph, keys: seq<string>, minWeight: nat) returns (edges: seq<Edge>)
    requires Distinct(keys)
    ensures forall e :: e in edges <==> Shown(g, keys, minWeight, e)
    ensures Distinct(edges)
  {
    hide Offered;
    edges := [];
    for next := 0 to |keys|
      invariant forall e :: e in edges <==> e.a in keys[..next] && e.a in g.stats && Offered(g, keys, minWeight, e)
      invariant Distinct(edges)
    {
      var key := keys[next];
      assert keys[..next + 1] == keys[..next] + [key] && key !in keys[..next];
      if key in g.stats {
        var more := EdgesFrom(g, key, keys, minWeight);
        StillDistinct(edges, more);
        edges := edges + more;
      }
    }
    assert keys[..|keys|] == keys;
  }

  lemma StillDistinct(edges: seq<Edge>, more: seq<Edge>)
    requires Distinct(edges)
    requires Distinct(more)
    requires forall e, e' :: e in edges && e' in more ==> e.a != e'.a
    ensures Distinct(edges + more)
  {
    forall i, j | 0 <= i < j < |edges + more| ensures (edges + more)[i] != (edges + more)[j] {
      if i < |edges| <= j {
        assert edges[i] in edges && more[j - |edges|] in more;
      }
    }
  }

  method TakeSnapshot(g: Graph, opts: GraphOptions) returns (snapshot: Snapshot, keys: seq<string>)
    requires WellFormed(g)
    ensures Selected(g, opts, keys, snapshot.truncated)
    ensures forall node :: node in snapshot.nodes <==>
      node.entity in keys && node.entity in g.stats && node == NodeOf(g, node.entity)
    ensures Distinct(keys)
    ensures forall i, j :: 0 <= i < j < |snapshot.nodes| ==>
      Before(keys, snapshot.nodes[i].entity, snapshot.nodes[j].entity)
    ensures forall e :: e in snapshot.edges <==> Shown(g, keys, opts.MinWeight(), e)
    ensures Distinct(snapshot.edges)
    ensures SortedBy(snapshot.edges, EDGE_ORDER)
    ensures snapshot.totalEntities == |g.stats| && snapshot.totalEdges == |g.edges|
  {
    var truncated;
    keys, truncated := Select(g, opts);
    hide Selected, Shown, Offered, NodeOf, Before;
    var nodes := ListNodes(g, keys);
    var edges := ListEdges(g, keys, opts.MinWeight());
    EdgeOrderIsOne();
    SortSorts(edges, EDGE_ORDER);
    SortedAgain(edges);
    snapshot := Snapshot(nodes, Sort(edges, EDGE_ORDER), |g.stats|, |g.edges|, truncated);
  }

  lemma NodeNames(g: Graph, key: string)
    requires key in g.stats
    ensures NodeOf(g, key).entity == key
  {
  }

  lemma SortedAgain(edges: seq<Edge>)
    requires Distinct(edges)
    ensures forall e :: e in Sort(edges, EDGE_ORDER) <==> e in edges
    ensures Distinct(Sort(edges, EDGE_ORDER))
  {
    var sorted := Sort(edges, EDGE_ORDER);
    SortPermutes(edges, EDGE_ORDER);
    forall e ensures e in sorted <==> e in edges {
      assert e in multiset(sorted) <==> e in multiset(edges);
    }
    var all := set e | e in edges;
    ListIsSet(edges);
    OnceEach(sorted, all);
  }

  lemma ListIsSet(edges: seq<Edge>)
    requires Distinct(edges)
    ensures multiset(edges) == multiset(set e | e in edges)
  {
    var all := set e | e in edges;
    forall e ensures multiset(edges)[e] == multiset(all)[e] {
      OnceOnly(edges, e);
      assert e in edges <==> e in multiset(edges);
    }
  }
}
