/** The entity tables: kept up to date turn by turn, recomputed after a delete. The two ways
    must agree; they do in everything but an entity's kind. */
module Aggregates {
  import opened EntityGraphs
  import opened Lists
  import opened Ranks
  import opened Sorting

  // A mention as the tables see it.
  datatype Mention = Mention(key: string, kind: string)

  datatype Turn = Turn(ts: int, mentions: seq<Mention>)

  type Stats = map<string, Stat>

  type Edges = map<(string, string), nat>

  const LEX: (string, string) -> bool := (a: string, b: string) => LexLeq(a, b)

  // --- one turn -----------------------------------------------------------

  function Keys(t: Turn): set<string> { set m | m in t.mentions :: m.key }

  predicate Before(a: string, b: string) { a != b && LexLeq(a, b) }

  function Pairs(t: Turn): set<(string, string)> {
    set a, b | a in Keys(t) && b in Keys(t) && Before(a, b) :: (a, b)
  }

  function FirstKind(mentions: seq<Mention>, key: string): string {
    if mentions == [] then "" else if mentions[0].key == key then mentions[0].kind else FirstKind(mentions[1..], key)
  }

  // The kind of the first turn that mentions an entity stays.
  function StatAfter(stats: Stats, t: Turn, key: string): Stat {
    if key in stats then
      var s := stats[key];
      s.(turns := s.turns + 1,
         firstTs := if t.ts < s.firstTs then t.ts else s.firstTs,
         lastTs := if t.ts > s.lastTs then t.ts else s.lastTs)
    else Stat(FirstKind(t.mentions, key), 1, t.ts, t.ts)
  }

  // The stats once the turn has been counted under some of its keys.
  function StatsWith(stats: Stats, t: Turn, keys: set<string>): Stats {
    map key | key in stats.Keys + keys :: if key in keys then StatAfter(stats, t, key) else stats[key]
  }

  function StatsAfter(stats: Stats, t: Turn): Stats { StatsWith(stats, t, Keys(t)) }

  function Weight(edges: Edges, e: (string, string)): nat { if e in edges then edges[e] else 0 }

  // The edges with one more turn on some of them.
  function EdgesWith(edges: Edges, more: set<(string, string)>): Edges {
    map e | e in edges.Keys + more :: Weight(edges, e) + if e in more then 1 else 0
  }

  function EdgesAfter(edges: Edges, t: Turn): Edges { EdgesWith(edges, Pairs(t)) }

  // --- recomputed from scratch --------------------------------------------

  ghost predicate Mentioned(t: Turn, key: string) { exists m :: m in t.mentions && m.key == key }

  ghost function TurnsWith(turns: seq<Turn>, key: string): set<nat> {
    set i | 0 <= i < |turns| && Mentioned(turns[i], key)
  }

  ghost function TurnsWithBoth(turns: seq<Turn>, e: (string, string)): set<nat> {
    set i | 0 <= i < |turns| && Mentioned(turns[i], e.0) && Mentioned(turns[i], e.1)
  }

  // How many turns, the earliest and the latest.
  ghost predicate StatRight(turns: seq<Turn>, key: string, s: Stat) {
    && s.turns == |TurnsWith(turns, key)| > 0
    && (forall i :: i in TurnsWith(turns, key) ==> s.firstTs <= turns[i].ts <= s.lastTs)
    && (exists i :: i in TurnsWith(turns, key) && turns[i].ts == s.firstTs)
    && (exists i :: i in TurnsWith(turns, key) && turns[i].ts == s.lastTs)
  }

  ghost predicate CountsRight(turns: seq<Turn>, stats: Stats, edges: Edges) {
    && (forall key :: key in stats <==> TurnsWith(turns, key) != {})
    && (forall key :: key in stats ==> StatRight(turns, key, stats[key]))
    && (forall e :: e in edges <==> Before(e.0, e.1) && TurnsWithBoth(turns, e) != {})
    && (forall e :: e in edges ==> edges[e] == |TurnsWithBoth(turns, e)|)
  }

  // The kind is the least of all the kinds an entity was mentioned as.
  ghost predicate KindRight(turns: seq<Turn>, key: string, kind: string) {
    && (exists i, m :: 0 <= i < |turns| && m in turns[i].mentions && m == Mention(key, kind))
    && (forall i, m :: 0 <= i < |turns| && m in turns[i].mentions && m.key == key ==> LexLeq(kind, m.kind))
  }

  ghost predicate KindsRight(turns: seq<Turn>, stats: Stats) {
    forall key :: key in stats ==> KindRight(turns, key, stats[key].kind)
  }

  // A row of the mentions table with its turn's time: what the recomputation groups.
  datatype Row = Row(turn: nat, ts: int, key: string, kind: string)

  function RowsOf(turns: seq<Turn>): set<Row> {
    set i, m | 0 <= i < |turns| && m in turns[i].mentions :: Row(i, turns[i].ts, m.key, m.kind)
  }

  lemma {:induction false} LeastExists(names: set<string>)
    requires names != {}
    ensures exists least :: least in names && forall name :: name in names ==> LexLeq(least, name)
    decreases |names|
  {
    var name :| name in names;
    var rest := names - {name};
    LexTotal(name, name);
    if rest == {} {
      assert names == {name};
    } else {
      LeastExists(rest);
      var least :| least in rest && forall other :: other in rest ==> LexLeq(least, other);
      LexTotal(least, name);
      forall other | other in names && LexLeq(name, least) ensures LexLeq(name, other) {
        if other in rest {
          LexTransitive(name, least, other);
        }
      }
      assert names == rest + {name};
    }
  }

  ghost function Least(names: set<string>): (least: string)
    requires names != {}
    ensures least in names && forall name :: name in names ==> LexLeq(least, name)
  {
    LeastExists(names);
    var least :| least in names && forall name :: name in names ==> LexLeq(least, name); least
  }

  lemma {:induction false} EndsExist(times: set<int>)
    requires times != {}
    ensures exists first :: first in times && forall ts :: ts in times ==> first <= ts
    ensures exists last :: last in times && forall ts :: ts in times ==> ts <= last
    decreases |times|
  {
    SomeInt(times);
    var ts :| ts in times;
    var rest := times - {ts};
    assert forall other :: other in times ==> other == ts || other in rest;
    if rest != {} {
      EndsExist(rest);
      var first :| first in rest && forall other :: other in rest ==> first <= other;
      var last :| last in rest && forall other :: other in rest ==> other <= last;
      var (a, b) := (if ts < first then ts else first, if ts > last then ts else last);
      assert a in times && b in times;
      assert forall other :: other in times ==> a <= other <= b;
    }
  }

  ghost function First(times: set<int>): (first: int)
    requires times != {}
    ensures first in times && forall ts :: ts in times ==> first <= ts
  {
    EndsExist(times);
    var first :| first in times && forall ts :: ts in times ==> first <= ts; first
  }

  ghost function Last(times: set<int>): (last: int)
    requires times != {}
    ensures last in times && forall ts :: ts in times ==> ts <= last
  {
    EndsExist(times);
    var last :| last in times && forall ts :: ts in times ==> ts <= last; last
  }

  ghost function KindsIn(rows: set<Row>, key: string): set<string> { set r | r in rows && r.key == key :: r.kind }

  ghost function TurnsIn(rows: set<Row>, key: string): set<nat> { set r | r in rows && r.key == key :: r.turn }

  ghost function TimesIn(rows: set<Row>, key: string): set<int> { set r | r in rows && r.key == key :: r.ts }

  // The rows of one entity: least kind, distinct turns, least and greatest time.
  ghost function Grouped(rows: set<Row>, key: string): Stat
    requires KindsIn(rows, key) != {} && TimesIn(rows, key) != {}
  {
    Stat(Least(KindsIn(rows, key)), |TurnsIn(rows, key)|, First(TimesIn(rows, key)), Last(TimesIn(rows, key)))
  }

  lemma RowCounts(rows: set<Row>, r: Row)
    requires r in rows
    ensures r.kind in KindsIn(rows, r.key) && r.turn in TurnsIn(rows, r.key) && r.ts in TimesIn(rows, r.key)
  {
  }

  ghost function EntitiesOf(turns: seq<Turn>): (entities: set<string>)
    ensures forall key :: key in entities ==> KindsIn(RowsOf(turns), key) != {} && TimesIn(RowsOf(turns), key) != {}
  {
    assert forall r :: r in RowsOf(turns) ==>
      r.kind in KindsIn(RowsOf(turns), r.key) && r.ts in TimesIn(RowsOf(turns), r.key);
    set r | r in RowsOf(turns) :: r.key
  }

  ghost function RecomputedStats(turns: seq<Turn>): Stats {
    map key | key in EntitiesOf(turns) :: Grouped(RowsOf(turns), key)
  }

  // The turns that two entities share, joined on the turn and kept under the smaller name.
  ghost function Joined(rows: set<Row>, e: (string, string)): set<nat> {
    set r, q | r in rows && q in rows && r.turn == q.turn && r.key == e.0 && q.key == e.1 :: r.turn
  }

  ghost function PairsIn(rows: set<Row>): set<(string, string)> {
    set r, q | r in rows && q in rows && r.turn == q.turn && Before(r.key, q.key) :: (r.key, q.key)
  }

  ghost function RecomputedEdges(turns: seq<Turn>): Edges {
    map e | e in PairsIn(RowsOf(turns)) :: |Joined(RowsOf(turns), e)|
  }

  // --- the incremental way, in place --------------------------------------

  method DistinctKeys(mentions: seq<Mention>) returns (keys: seq<string>, kinds: map<string, string>)
    ensures Distinct(keys) && SortedBy(keys, LEX)
    ensures forall key :: key in keys <==> key in kinds
    ensures forall key :: key in kinds <==> exists m :: m in mentions && m.key == key
    ensures forall key :: key in kinds ==> kinds[key] == FirstKind(mentions, key)
  {
    kinds := map[];
    keys := [];
    for i := 0 to |mentions|
      invariant Distinct(keys) && forall key :: key in keys <==> key in kinds
      invariant forall key :: key in kinds <==> exists m :: m in mentions[..i] && m.key == key
      invariant forall key :: key in kinds ==> kinds[key] == FirstKind(mentions[..i], key)
    {
      var m := mentions[i];
      assert mentions[..i + 1] == mentions[..i] + [m];
      FirstKindGrows(mentions[..i], m);
      if m.key !in kinds {
        kinds := kinds[m.key := m.kind];
        keys := keys + [m.key];
      }
    }
    assert mentions[..|mentions|] == mentions;
    SortPermutes(keys, LEX);
    LexOrder();
    SortSorts(keys, LEX);
    var sorted := Sort(keys, LEX);
    DistinctKept(keys, sorted);
    SameElements(keys, sorted);
    keys := sorted;
  }

  lemma SameElements(xs: seq<string>, ys: seq<string>)
    requires multiset(xs) == multiset(ys)
    ensures forall x :: x in xs <==> x in ys
  {
    forall x ensures x in xs <==> x in ys {
      assert x in multiset(xs) <==> x in multiset(ys);
    }
  }

  lemma LexOrder()
    ensures Preorder(LEX)
  {
    forall a, b ensures LEX(a, b) || LEX(b, a) {
      LexTotal(a, b);
    }
    forall a, b, c | LEX(a, b) && LEX(b, c) ensures LEX(a, c) {
      LexTransitive(a, b, c);
    }
  }

  lemma {:induction false} FirstKindGrows(mentions: seq<Mention>, m: Mention)
    ensures forall key ::
      (FirstKind(mentions + [m], key) ==
        if exists n :: n in mentions && n.key == key then FirstKind(mentions, key)
        else if m.key == key then m.kind else "")
  {
    if mentions == [] {
      assert mentions + [m] == [m];
    } else {
      FirstKindGrows(mentions[1..], m);
      assert (mentions + [m])[1..] == mentions[1..] + [m];
      assert mentions == [mentions[0]] + mentions[1..];
    }
  }

  class Tables {
    var stats: Stats
    var edges: Edges

    constructor ()
      ensures stats == map[] && edges == map[]
    {
      stats, edges := map[], map[];
    }

    method AddStats(t: Turn, keys: seq<string>, kinds: map<string, string>)
      requires Distinct(keys) && (forall key :: key in keys <==> key in Keys(t))
      requires forall key :: key in keys ==> key in kinds && kinds[key] == FirstKind(t.mentions, key)
      modifies this`stats
      ensures stats == StatsAfter(old(stats), t)
    {
      hide StatsWith;
      ghost var was, done := stats, {};
      NoStats(was, t);
      for i := 0 to |keys|
        invariant done == (set k | k in keys[..i]) && stats == StatsWith(was, t, done)
      {
        var key := keys[i];
        assert keys[..i + 1] == keys[..i] + [key] && key !in keys[..i];
        OneMoreStat(was, t, done, key);
        if key in stats {
          var s := stats[key];
          stats := stats[key := s.(turns := s.turns + 1,
            firstTs := if t.ts < s.firstTs then t.ts else s.firstTs,
            lastTs := if t.ts > s.lastTs then t.ts else s.lastTs)];
        } else {
          stats := stats[key := Stat(kinds[key], 1, t.ts, t.ts)];
        }
        done := done + {key};
      }
      assert keys[..|keys|] == keys && done == Keys(t);
    }

    method AddEdges(keys: seq<string>, ghost t: Turn)
      requires Distinct(keys) && SortedBy(keys, LEX) && (forall key :: key in keys <==> key in Keys(t))
      modifies this`edges
      ensures edges == EdgesAfter(old(edges), t)
    {
      hide EdgesWith, PairsUpTo;
      ghost var was := edges;
      NoEdges(was, keys);
      for i := 0 to |keys|
        invariant edges == EdgesWith(was, PairsUpTo(keys, i, i + 1))
      {
        for j := i + 1 to |keys|
          invariant edges == EdgesWith(was, PairsUpTo(keys, i, j))
        {
          var e := (keys[i], keys[j]);
          OneMorePair(keys, i, j);
          OneMoreEdge(was, PairsUpTo(keys, i, j), e);
          edges := edges[e := Weight(edges, e) + 1];
        }
        RowDone(keys, i);
      }
      PairsAreAll(keys, t);
    }

    // What one more turn does to the tables.
    method Add(t: Turn)
      modifies this
      ensures stats == StatsAfter(old(stats), t) && edges == EdgesAfter(old(edges), t)
    {
      var keys, kinds := DistinctKeys(t.mentions);
      AddStats(t, keys, kinds);
      AddEdges(keys, t);
    }
  }

  lemma NoStats(stats: Stats, t: Turn)
    ensures StatsWith(stats, t, {}) == stats
  {
  }

  lemma OneMoreStat(stats: Stats, t: Turn, keys: set<string>, key: string)
    requires key !in keys
    ensures StatsWith(stats, t, keys + {key}) == StatsWith(stats, t, keys)[key := StatAfter(stats, t, key)]
    ensures key in StatsWith(stats, t, keys) <==> key in stats
    ensures key in stats ==> StatsWith(stats, t, keys)[key] == stats[key]
  {
  }

  // The pairs of rows before `i` and those of row i before column j.
  ghost function PairsUpTo(keys: seq<string>, i: nat, j: nat): set<(string, string)> {
    set p, q | 0 <= p < |keys| && 0 <= q < |keys| && p < q && (p < i || (p == i && q < j)) :: (keys[p], keys[q])
  }

  lemma NoEdges(edges: Edges, keys: seq<string>)
    ensures PairsUpTo(keys, 0, 1) == {} && EdgesWith(edges, {}) == edges
  {
  }

  lemma OneMoreEdge(edges: Edges, done: set<(string, string)>, e: (string, string))
    requires e !in done
    ensures EdgesWith(edges, done + {e}) == EdgesWith(edges, done)[e := Weight(EdgesWith(edges, done), e) + 1]
  {
  }

  lemma OneMorePair(keys: seq<string>, i: nat, j: nat)
    requires Distinct(keys) && i < j < |keys|
    ensures (keys[i], keys[j]) !in PairsUpTo(keys, i, j)
    ensures PairsUpTo(keys, i, j + 1) == PairsUpTo(keys, i, j) + {(keys[i], keys[j])}
  {
  }

  lemma RowDone(keys: seq<string>, i: nat)
    requires i < |keys|
    ensures PairsUpTo(keys, i, |keys|) == PairsUpTo(keys, i + 1, i + 2)
  {
  }

  lemma PairsAreAll(keys: seq<string>, t: Turn)
    requires Distinct(keys) && SortedBy(keys, LEX) && (forall key :: key in keys <==> key in Keys(t))
    ensures PairsUpTo(keys, |keys|, |keys| + 1) == Pairs(t)
  {
    var done := PairsUpTo(keys, |keys|, |keys| + 1);
    forall e | e in done ensures e in Pairs(t) {
      var p, q :| 0 <= p < |keys| && 0 <= q < |keys| && p < q && e == (keys[p], keys[q]);
      assert LEX(keys[p], keys[q]);
    }
    forall e | e in Pairs(t) ensures e in done {
      var p :| 0 <= p < |keys| && keys[p] == e.0;
      var q :| 0 <= q < |keys| && keys[q] == e.1;
      if q < p {
        assert LEX(keys[q], keys[p]);
        LexTotal(e.0, e.1);
      }
    }
  }

  // --- the two ways compared ----------------------------------------------

  lemma OneMoreTurn(turns: seq<Turn>, t: Turn)
    ensures forall key ::
      (TurnsWith(turns + [t], key) == TurnsWith(turns, key) + if Mentioned(t, key) then {|turns|} else {})
    ensures forall e ::
      (TurnsWithBoth(turns + [t], e) == TurnsWithBoth(turns, e) +
        if Mentioned(t, e.0) && Mentioned(t, e.1) then {|turns|} else {})
  {
    var more := turns + [t];
    assert forall i :: 0 <= i < |turns| ==> more[i] == turns[i];
    assert more[|turns|] == t;
  }

  lemma StatGrows(turns: seq<Turn>, t: Turn, stats: Stats, key: string)
    requires Mentioned(t, key)
    requires if key in stats then StatRight(turns, key, stats[key]) else TurnsWith(turns, key) == {}
    ensures StatRight(turns + [t], key, StatAfter(stats, t, key))
  {
    OneMoreTurn(turns, t);
    var more, now := turns + [t], StatAfter(stats, t, key);
    var before, after := TurnsWith(turns, key), TurnsWith(more, key);
    assert |turns| !in before && after == before + {|turns|} && more[|turns|] == t;
    assert forall i :: i in before ==> more[i] == turns[i];
    if key in stats {
      var i :| i in before && turns[i].ts == stats[key].firstTs;
      var j :| j in before && turns[j].ts == stats[key].lastTs;
      assert more[if t.ts < stats[key].firstTs then |turns| else i].ts == now.firstTs;
      assert more[if t.ts > stats[key].lastTs then |turns| else j].ts == now.lastTs;
    } else {
      assert more[|turns|].ts == now.firstTs == now.lastTs;
    }
  }

  lemma StatStays(turns: seq<Turn>, t: Turn, key: string, s: Stat)
    requires !Mentioned(t, key) && StatRight(turns, key, s)
    ensures StatRight(turns + [t], key, s)
  {
    OneMoreTurn(turns, t);
    var more := turns + [t];
    assert forall i :: i in TurnsWith(turns, key) ==> more[i] == turns[i];
    var i :| i in TurnsWith(turns, key) && turns[i].ts == s.firstTs;
    var j :| j in TurnsWith(turns, key) && turns[j].ts == s.lastTs;
    assert more[i].ts == s.firstTs && more[j].ts == s.lastTs;
  }

  lemma EdgeGrows(turns: seq<Turn>, t: Turn, e: (string, string))
    ensures |TurnsWithBoth(turns + [t], e)| == |TurnsWithBoth(turns, e)| +
      if Mentioned(t, e.0) && Mentioned(t, e.1) then 1 else 0
  {
    OneMoreTurn(turns, t);
    assert |turns| !in TurnsWithBoth(turns, e);
  }

  lemma KeysMentioned(t: Turn)
    ensures forall key :: key in Keys(t) <==> Mentioned(t, key)
    ensures forall e :: e in Pairs(t) <==> Before(e.0, e.1) && Mentioned(t, e.0) && Mentioned(t, e.1)
  {
  }

  lemma StatsHave(stats: Stats, t: Turn, key: string)
    ensures key in StatsAfter(stats, t) <==> key in stats || Mentioned(t, key)
    ensures Mentioned(t, key) ==> StatsAfter(stats, t)[key] == StatAfter(stats, t, key)
    ensures !Mentioned(t, key) && key in stats ==> StatsAfter(stats, t)[key] == stats[key]
  {
    KeysMentioned(t);
  }

  lemma EdgesHave(edges: Edges, t: Turn, e: (string, string))
    ensures var both := Before(e.0, e.1) && Mentioned(t, e.0) && Mentioned(t, e.1);
      && (e in EdgesAfter(edges, t) <==> e in edges || both)
      && (e in EdgesAfter(edges, t) ==> EdgesAfter(edges, t)[e] == Weight(edges, e) + if both then 1 else 0)
  {
    KeysMentioned(t);
  }

  lemma StatKept(turns: seq<Turn>, stats: Stats, edges: Edges, t: Turn, key: string)
    requires CountsRight(turns, stats, edges)
    ensures key in StatsAfter(stats, t) <==> TurnsWith(turns + [t], key) != {}
    ensures key in StatsAfter(stats, t) ==> StatRight(turns + [t], key, StatsAfter(stats, t)[key])
  {
    hide StatAfter, StatRight, StatsAfter, Mentioned;
    OneMoreTurn(turns, t);
    StatsHave(stats, t, key);
    if Mentioned(t, key) {
      StatGrows(turns, t, stats, key);
    } else if key in stats {
      StatStays(turns, t, key, stats[key]);
    }
  }

  lemma EdgeKept(turns: seq<Turn>, stats: Stats, edges: Edges, t: Turn, e: (string, string))
    requires CountsRight(turns, stats, edges)
    ensures e in EdgesAfter(edges, t) <==> Before(e.0, e.1) && TurnsWithBoth(turns + [t], e) != {}
    ensures e in EdgesAfter(edges, t) ==> EdgesAfter(edges, t)[e] == |TurnsWithBoth(turns + [t], e)|
  {
    hide EdgesAfter, Mentioned, Before;
    OneMoreTurn(turns, t);
    EdgesHave(edges, t, e);
    EdgeGrows(turns, t, e);
  }

  // Counting one turn onto tables that are right leaves them right.
  lemma AddKeepsCounts(turns: seq<Turn>, stats: Stats, edges: Edges, t: Turn)
    requires CountsRight(turns, stats, edges)
    ensures CountsRight(turns + [t], StatsAfter(stats, t), EdgesAfter(edges, t))
  {
    forall key
      ensures key in StatsAfter(stats, t) <==> TurnsWith(turns + [t], key) != {}
      ensures key in StatsAfter(stats, t) ==> StatRight(turns + [t], key, StatsAfter(stats, t)[key])
    {
      StatKept(turns, stats, edges, t, key);
    }
    forall e
      ensures e in EdgesAfter(edges, t) <==> Before(e.0, e.1) && TurnsWithBoth(turns + [t], e) != {}
      ensures e in EdgesAfter(edges, t) ==> EdgesAfter(edges, t)[e] == |TurnsWithBoth(turns + [t], e)|
    {
      EdgeKept(turns, stats, edges, t, e);
    }
    hide StatsAfter, EdgesAfter, TurnsWith, TurnsWithBoth, StatRight;
  }

  // The kind an entity of the turn will be recorded with.
  function KindAfter(stats: Stats, t: Turn, key: string): string {
    if key in stats then stats[key].kind else FirstKind(t.mentions, key)
  }

  lemma {:induction false} FirstKindIsOne(mentions: seq<Mention>, m: Mention)
    requires m in mentions
    ensures Mention(m.key, FirstKind(mentions, m.key)) in mentions
  {
    if mentions[0].key != m.key {
      assert mentions == [mentions[0]] + mentions[1..];
      FirstKindIsOne(mentions[1..], m);
    }
  }

  lemma NeverMentioned(turns: seq<Turn>, key: string)
    requires TurnsWith(turns, key) == {}
    ensures forall i, m :: 0 <= i < |turns| && m in turns[i].mentions ==> m.key != key
  {
    forall i | 0 <= i < |turns| ensures !Mentioned(turns[i], key) {
      assert i !in TurnsWith(turns, key);
    }
  }

  lemma KindGrows(turns: seq<Turn>, t: Turn, stats: Stats, key: string)
    requires key in stats ==> KindRight(turns, key, stats[key].kind)
    requires key !in stats ==> TurnsWith(turns, key) == {}
    requires Mentioned(t, key)
    ensures KindRight(turns + [t], key, KindAfter(stats, t, key))
      <==> forall m :: m in t.mentions && m.key == key ==> LexLeq(KindAfter(stats, t, key), m.kind)
  {
    var more, kind := turns + [t], KindAfter(stats, t, key);
    var n := |turns|;
    assert more[n] == t && forall i :: 0 <= i < n ==> more[i] == turns[i];
    if key in stats {
      var i, m :| 0 <= i < n && m in turns[i].mentions && m == Mention(key, stats[key].kind);
      assert m in more[i].mentions;
    } else {
      var m :| m in t.mentions && m.key == key;
      FirstKindIsOne(t.mentions, m);
      assert Mention(key, kind) in more[n].mentions;
      NeverMentioned(turns, key);
    }
  }

  lemma KindStays(turns: seq<Turn>, t: Turn, key: string, kind: string)
    requires !Mentioned(t, key) && KindRight(turns, key, kind)
    ensures KindRight(turns + [t], key, kind)
  {
    var more, n := turns + [t], |turns|;
    assert more[n] == t && forall i :: 0 <= i < n ==> more[i] == turns[i];
    var i, m :| 0 <= i < n && m in turns[i].mentions && m == Mention(key, kind);
    assert m in more[i].mentions;
  }

  // The kinds stay what a recomputation would give exactly when no mention of the new turn
  // has a kind before the one recorded for its entity.
  lemma AddKeepsKindsExactlyWhen(turns: seq<Turn>, stats: Stats, edges: Edges, t: Turn)
    requires CountsRight(turns, stats, edges) && KindsRight(turns, stats)
    ensures KindsRight(turns + [t], StatsAfter(stats, t))
      <==> forall m :: m in t.mentions ==> LexLeq(KindAfter(stats, t, m.key), m.kind)
  {
    var more, stats' := turns + [t], StatsAfter(stats, t);
    KeysMentioned(t);
    forall key | key in stats'
      ensures stats'[key].kind == if Mentioned(t, key) then KindAfter(stats, t, key) else stats[key].kind
    {
    }
    hide KindRight, TurnsWith, KindAfter, StatRight, StatsAfter;
    forall key | key in stats'
      ensures KindRight(more, key, stats'[key].kind) <==>
        forall m :: m in t.mentions && m.key == key ==> LexLeq(KindAfter(stats, t, key), m.kind)
    {
      if Mentioned(t, key) {
        KindGrows(turns, t, stats, key);
      } else {
        KindStays(turns, t, key, stats[key].kind);
      }
    }
    forall m | m in t.mentions ensures m.key in stats' {
      assert Mentioned(t, m.key);
      StatsHave(stats, t, m.key);
    }
  }

  // --- the recomputation is right -----------------------------------------

  lemma RowsMention(turns: seq<Turn>)
    ensures forall r :: r in RowsOf(turns) ==>
      r.turn < |turns| && r.ts == turns[r.turn].ts && Mention(r.key, r.kind) in turns[r.turn].mentions
    ensures forall i, m :: 0 <= i < |turns| && m in turns[i].mentions ==>
      Row(i, turns[i].ts, m.key, m.kind) in RowsOf(turns)
  {
  }

  lemma RowTurns(turns: seq<Turn>, key: string)
    ensures TurnsIn(RowsOf(turns), key) == TurnsWith(turns, key)
    ensures key in EntitiesOf(turns) <==> TurnsWith(turns, key) != {}
  {
    var rows := RowsOf(turns);
    RowsMention(turns);
    hide RowsOf;
    forall i ensures i in TurnsIn(rows, key) <==> i in TurnsWith(turns, key) {
      if i in TurnsWith(turns, key) {
        var m :| m in turns[i].mentions && m.key == key;
        assert Row(i, turns[i].ts, m.key, m.kind) in rows;
      }
      if i in TurnsIn(rows, key) {
        var r :| r in rows && r.key == key && r.turn == i;
        assert Mention(r.key, r.kind) in turns[i].mentions;
      }
    }
    assert TurnsIn(rows, key) == TurnsWith(turns, key);
    if key in EntitiesOf(turns) {
      var r :| r in rows && r.key == key;
      assert r.turn in TurnsIn(rows, key);
    }
    if TurnsWith(turns, key) != {} {
      var i :| i in TurnsIn(rows, key);
      var r :| r in rows && r.key == key && r.turn == i;
    }
  }

  lemma GroupedIs(rows: set<Row>, key: string)
    requires KindsIn(rows, key) != {} && TimesIn(rows, key) != {}
    ensures var s := Grouped(rows, key);
      && s.turns == |TurnsIn(rows, key)|
      && s.firstTs in TimesIn(rows, key) && s.lastTs in TimesIn(rows, key)
      && (forall ts :: ts in TimesIn(rows, key) ==> s.firstTs <= ts <= s.lastTs)
      && s.kind in KindsIn(rows, key) && (forall kind :: kind in KindsIn(rows, key) ==> LexLeq(s.kind, kind))
  {
    hide LexLeq, KindsIn, TurnsIn, TimesIn;
  }

  lemma GroupedStat(turns: seq<Turn>, key: string)
    requires key in EntitiesOf(turns)
    ensures StatRight(turns, key, Grouped(RowsOf(turns), key))
  {
    hide RowsOf, EntitiesOf, TurnsWith, KindsIn, Mentioned, Grouped, LexLeq, TimesIn, TurnsIn;
    RowTurns(turns, key);
    RowsMention(turns);
    var rows := RowsOf(turns);
    GroupedIs(rows, key);
    var stat := Grouped(rows, key);
    TimeOf(turns, rows, key, stat.firstTs);
    TimeOf(turns, rows, key, stat.lastTs);
    forall i | i in TurnsIn(rows, key) ensures i < |turns| && turns[i].ts in TimesIn(rows, key) {
      TimeIn(turns, rows, key, i);
    }
    var i :| i in TurnsIn(rows, key) && i < |turns| && turns[i].ts == stat.firstTs;
    assert i in TurnsWith(turns, key);
  }

  lemma TimeOf(turns: seq<Turn>, rows: set<Row>, key: string, ts: int)
    requires ts in TimesIn(rows, key) && forall r :: r in rows ==> r.turn < |turns| && r.ts == turns[r.turn].ts
    ensures exists i :: i in TurnsIn(rows, key) && i < |turns| && turns[i].ts == ts
  {
    var r :| r in rows && r.key == key && r.ts == ts;
    assert r.turn in TurnsIn(rows, key);
  }

  lemma TimeIn(turns: seq<Turn>, rows: set<Row>, key: string, i: nat)
    requires i in TurnsIn(rows, key) && forall r :: r in rows ==> r.turn < |turns| && r.ts == turns[r.turn].ts
    ensures i < |turns| && turns[i].ts in TimesIn(rows, key)
  {
    var r :| r in rows && r.key == key && r.turn == i;
  }

  lemma GroupedKind(turns: seq<Turn>, key: string)
    requires key in EntitiesOf(turns)
    ensures KindRight(turns, key, Grouped(RowsOf(turns), key).kind)
  {
    hide RowsOf, EntitiesOf, Grouped, LexLeq;
    RowsMention(turns);
    var rows := RowsOf(turns);
    GroupedIs(rows, key);
    var kind := Grouped(rows, key).kind;
    var least :| least in rows && least.key == key && least.kind == kind;
    assert Mention(key, kind) in turns[least.turn].mentions;
    hide KindsIn;
    forall i, m | 0 <= i < |turns| && m in turns[i].mentions && m.key == key ensures LexLeq(kind, m.kind) {
      RowCounts(rows, Row(i, turns[i].ts, m.key, m.kind));
    }
  }

  lemma JoinedTurns(turns: seq<Turn>, e: (string, string))
    ensures Joined(RowsOf(turns), e) == TurnsWithBoth(turns, e)
  {
    RowTurns(turns, e.0);
    RowTurns(turns, e.1);
    var rows := RowsOf(turns);
    hide RowsOf, EntitiesOf, Mentioned;
    assert forall i :: i in TurnsWithBoth(turns, e) <==> i in TurnsWith(turns, e.0) && i in TurnsWith(turns, e.1);
    hide TurnsWith, TurnsWithBoth;
    forall i | i in TurnsIn(rows, e.0) && i in TurnsIn(rows, e.1) ensures i in Joined(rows, e) {
      var r :| r in rows && r.key == e.0 && r.turn == i;
      var q :| q in rows && q.key == e.1 && q.turn == i;
    }
  }

  lemma JoinedPairs(rows: set<Row>, e: (string, string))
    ensures e in PairsIn(rows) <==> Before(e.0, e.1) && Joined(rows, e) != {}
  {
    hide Before;
    if e in PairsIn(rows) {
      var r, q :| r in rows && q in rows && r.turn == q.turn && Before(r.key, q.key) && e == (r.key, q.key);
      assert r.turn in Joined(rows, e);
    }
    if Before(e.0, e.1) && Joined(rows, e) != {} {
      var i :| i in Joined(rows, e);
      var r, q :| r in rows && q in rows && r.turn == q.turn && r.key == e.0 && q.key == e.1 && r.turn == i;
    }
  }

  // Grouping the rows gives tables that are right in everything, kinds included.
  lemma RecomputedIsRight(turns: seq<Turn>)
    ensures CountsRight(turns, RecomputedStats(turns), RecomputedEdges(turns))
    ensures KindsRight(turns, RecomputedStats(turns))
  {
    hide TurnsWith, TurnsWithBoth, StatRight, KindRight, Grouped, RowsOf, EntitiesOf, Joined, PairsIn, Before;
    var stats, edges := RecomputedStats(turns), RecomputedEdges(turns);
    forall key
      ensures key in stats <==> TurnsWith(turns, key) != {}
      ensures key in stats ==> StatRight(turns, key, stats[key]) && KindRight(turns, key, stats[key].kind)
    {
      RowTurns(turns, key);
      if key in stats {
        GroupedStat(turns, key);
        GroupedKind(turns, key);
      }
    }
    forall e
      ensures e in edges <==> Before(e.0, e.1) && TurnsWithBoth(turns, e) != {}
      ensures e in edges ==> edges[e] == |TurnsWithBoth(turns, e)|
    {
      JoinedTurns(turns, e);
      JoinedPairs(RowsOf(turns), e);
    }
  }

  // --- over a whole history -----------------------------------------------

  datatype State = State(turns: seq<Turn>, stats: Stats, edges: Edges)

  // A turn is inserted, or, after a delete or a change of the mentions, the tables are
  // recomputed from the turns there are.
  ghost predicate Step(s: State, s': State) {
    || (exists t ::
          s'.turns == s.turns + [t] && s'.stats == StatsAfter(s.stats, t) && s'.edges == EdgesAfter(s.edges, t))
    || (s'.stats == RecomputedStats(s'.turns) && s'.edges == RecomputedEdges(s'.turns))
  }

  ghost predicate History(states: seq<State>) {
    && states != [] && states[0] == State([], map[], map[])
    && forall i :: 0 < i < |states| ==> Step(states[i - 1], states[i])
  }

  // Whatever was inserted, deleted and recomputed before, the counts and times are right.
  lemma {:induction false} CountsAlwaysRight(states: seq<State>, i: nat)
    requires History(states) && i < |states|
    ensures CountsRight(states[i].turns, states[i].stats, states[i].edges)
  {
    if i > 0 {
      CountsAlwaysRight(states, i - 1);
      var s, s' := states[i - 1], states[i];
      assert Step(s, s');
      if t :| s'.turns == s.turns + [t] && s'.stats == StatsAfter(s.stats, t) && s'.edges == EdgesAfter(s.edges, t) {
        AddKeepsCounts(s.turns, s.stats, s.edges, t);
      } else {
        RecomputedIsRight(s'.turns);
      }
    }
  }

  // A recomputation changes nothing but kinds.
  lemma RecomputingAgrees(turns: seq<Turn>, stats: Stats, edges: Edges)
    requires CountsRight(turns, stats, edges)
    ensures var stats', edges' := RecomputedStats(turns), RecomputedEdges(turns);
      && edges == edges' && stats.Keys == stats'.Keys
      && (forall key :: key in stats ==> stats[key] == stats'[key].(kind := stats[key].kind))
      && (stats == stats' <==> KindsRight(turns, stats))
  {
    hide RecomputedStats, RecomputedEdges, CountsRight, KindsRight;
    RecomputedIsRight(turns);
    OneRightTable(turns, stats, edges, RecomputedStats(turns), RecomputedEdges(turns));
    if KindsRight(turns, stats) {
      SameKinds(turns, stats, RecomputedStats(turns));
    }
  }

  lemma SameKinds(turns: seq<Turn>, stats: Stats, stats': Stats)
    requires KindsRight(turns, stats) && KindsRight(turns, stats') && stats.Keys == stats'.Keys
    requires forall key :: key in stats ==> stats[key] == stats'[key].(kind := stats[key].kind)
    ensures stats == stats'
  {
    hide KindRight;
    forall key | key in stats ensures stats[key] == stats'[key] {
      SameKind(turns, key, stats[key].kind, stats'[key].kind);
    }
  }

  lemma OneRightTable(turns: seq<Turn>, stats: Stats, edges: Edges, stats': Stats, edges': Edges)
    requires CountsRight(turns, stats, edges) && CountsRight(turns, stats', edges')
    ensures edges == edges' && stats.Keys == stats'.Keys
    ensures forall key :: key in stats ==> stats[key] == stats'[key].(kind := stats[key].kind)
  {
    forall key | key in stats ensures key in stats' && stats[key] == stats'[key].(kind := stats[key].kind) {
      SameStat(turns, key, stats[key], stats'[key]);
    }
  }

  lemma SameKind(turns: seq<Turn>, key: string, kind: string, kind': string)
    requires KindRight(turns, key, kind) && KindRight(turns, key, kind')
    ensures kind == kind'
  {
    var i, m :| 0 <= i < |turns| && m in turns[i].mentions && m == Mention(key, kind);
    var i', m' :| 0 <= i' < |turns| && m' in turns[i'].mentions && m' == Mention(key, kind');
    LexTotal(kind, kind');
  }

  lemma SameStat(turns: seq<Turn>, key: string, s: Stat, s': Stat)
    requires StatRight(turns, key, s) && StatRight(turns, key, s')
    ensures s == s'.(kind := s.kind)
  {
  }

  // The edges the graph reads are kept under their smaller end.
  lemma EdgesWellFormed(turns: seq<Turn>, stats: Stats, edges: Edges)
    requires CountsRight(turns, stats, edges)
    ensures WellFormed(Graph(stats, edges))
  {
  }

  // One key under two kinds, the later kind first: the tables say `symbol`, a
  // recomputation `env`.
  lemma KindsCanDiffer()
    ensures var symbol, env := Turn(1, [Mention("heron_url", "symbol")]), Turn(2, [Mention("heron_url", "env")]);
      var kept, recomputed := StatsAfter(StatsAfter(map[], symbol), env), RecomputedStats([symbol, env]);
      && "heron_url" in kept && kept["heron_url"].kind == "symbol"
      && "heron_url" in recomputed && recomputed["heron_url"].kind == "env"
  {
    var symbol, env := Turn(1, [Mention("heron_url", "symbol")]), Turn(2, [Mention("heron_url", "env")]);
    var first, second := symbol.mentions[0], env.mentions[0];
    hide RecomputedStats;
    assert first.key in Keys(symbol) && second.key in Keys(env);
    RecomputedLeast([symbol, env], first, second);
  }

  lemma RecomputedLeast(turns: seq<Turn>, first: Mention, second: Mention)
    requires first == Mention("heron_url", "symbol") && second == Mention("heron_url", "env")
    requires |turns| == 2 && turns[0].mentions == [first] && turns[1].mentions == [second]
    ensures var recomputed := RecomputedStats(turns); "heron_url" in recomputed && recomputed["heron_url"].kind == "env"
  {
    hide RecomputedStats, RecomputedEdges, StatRight, KindRight;
    RecomputedIsRight(turns);
    assert first in turns[0].mentions && 0 in TurnsWith(turns, "heron_url");
    LeastOfTwo(turns, first, second, RecomputedStats(turns)["heron_url"].kind);
  }

  lemma LeastOfTwo(turns: seq<Turn>, first: Mention, second: Mention, kind: string)
    requires first == Mention("heron_url", "symbol") && second == Mention("heron_url", "env")
    requires |turns| == 2 && turns[0].mentions == [first] && turns[1].mentions == [second]
    requires KindRight(turns, "heron_url", kind)
    ensures kind == "env"
  {
    assert second in turns[1].mentions && !LexLeq("symbol", "env");
  }
}
