/** A session cut into windows and the windows into episodes. */
module Timelines {
  import opened Lists
  import opened Overlaps
  import opened Ranks
  import opened Sorting

  const WINDOW_GAP_MS: int := 30 * 60 * 1000
  const WINDOW_MAX_TURNS: nat := 50
  const SEGMENT_ENTITIES: nat := 8
  const EPISODE_MIN_OVERLAP: real := 0.15

  datatype TurnRef = TurnRef(id: int, ts: int, entities: seq<string>)

  datatype Level = Window | Episode

  datatype Segment = Segment(
    level: Level, startTs: int, endTs: int, firstTurnId: int, lastTurnId: int, turns: nat, entities: seq<string>)

  // A stretch from its first index up to, not including, its last.
  type Stretch = (nat, nat)

  // --- cutting into stretches ---------------------------------------------

  // The stretches follow one another, none empty, and cover 0 to n.
  ghost predicate Partitions(parts: seq<Stretch>, n: nat) {
    if parts == [] then n == 0
    else
      var last := parts[|parts| - 1];
      last.0 < last.1 == n && Partitions(parts[..|parts| - 1], last.0)
  }

  ghost predicate StartsAt(parts: seq<Stretch>, i: nat) {
    exists k :: 0 <= k < |parts| && parts[k].0 == i
  }

  lemma {:induction false} InOrder(parts: seq<Stretch>, n: nat)
    requires Partitions(parts, n)
    ensures forall k :: 0 <= k < |parts| ==> parts[k].0 < parts[k].1 <= n
    ensures forall i, j :: 0 <= i < j < |parts| ==> parts[i].1 <= parts[j].0
  {
    if parts != [] {
      InOrder(parts[..|parts| - 1], parts[|parts| - 1].0);
    }
  }

  lemma {:induction false} Adjacent(parts: seq<Stretch>, n: nat, k: nat)
    requires Partitions(parts, n) && k < |parts|
    ensures parts[k].0 == if k == 0 then 0 else parts[k - 1].1
  {
    if k < |parts| - 1 {
      Adjacent(parts[..|parts| - 1], parts[|parts| - 1].0, k);
    }
  }

  // Nothing starts inside a stretch.
  lemma NoStartInside(parts: seq<Stretch>, n: nat, k: nat, i: nat)
    requires Partitions(parts, n) && k < |parts| && parts[k].0 < i < parts[k].1
    ensures !StartsAt(parts, i)
  {
    InOrder(parts, n);
  }

  // Two cuttings that start their stretches at the same places are the same.
  lemma {:induction false} SameCutting(parts: seq<Stretch>, parts': seq<Stretch>, n: nat)
    requires Partitions(parts, n) && Partitions(parts', n)
    requires forall i :: 0 < i < n ==> (StartsAt(parts, i) <==> StartsAt(parts', i))
    ensures parts == parts'
  {
    if n > 0 {
      var k, k' := |parts| - 1, |parts'| - 1;
      var a, a' := parts[k].0, parts'[k'].0;
      assert StartsAt(parts, a) && StartsAt(parts', a');
      if a < a' {
        NoStartInside(parts, n, k, a');
      } else if a' < a {
        NoStartInside(parts', n, k', a);
      }
      InitStarts(parts, n);
      InitStarts(parts', n);
      SameCutting(parts[..k], parts'[..k'], a);
      assert parts == parts[..k] + [(a, n)] && parts' == parts'[..k'] + [(a, n)];
    }
  }

  lemma InitStarts(parts: seq<Stretch>, n: nat)
    requires Partitions(parts, n) && parts != []
    ensures var last := |parts| - 1;
      forall i :: i < parts[last].0 ==> (StartsAt(parts[..last], i) <==> StartsAt(parts, i))
  {
    var last := |parts| - 1;
    forall i | i < parts[last].0 && StartsAt(parts, i) ensures StartsAt(parts[..last], i) {
      var k :| 0 <= k < |parts| && parts[k].0 == i;
      assert parts[..last][k].0 == i;
    }
  }

  function Lengths(parts: seq<Stretch>): int {
    if parts == [] then 0 else Lengths(parts[..|parts| - 1]) + parts[|parts| - 1].1 - parts[|parts| - 1].0
  }

  // The lengths of a cutting sum to the whole.
  lemma {:induction false} LengthsSum(parts: seq<Stretch>, n: nat)
    requires Partitions(parts, n)
    ensures Lengths(parts) == n
  {
    if parts != [] {
      LengthsSum(parts[..|parts| - 1], parts[|parts| - 1].0);
    }
  }

  // --- windows ------------------------------------------------------------

  predicate Silence(turns: seq<TurnRef>, i: nat)
    requires 0 < i < |turns|
  {
    turns[i].ts - turns[i - 1].ts > WINDOW_GAP_MS
  }

  // Where the window holding turn i starts: a silence or a full window starts another.
  ghost function WindowStart(turns: seq<TurnRef>, i: nat): nat
    requires i < |turns|
  {
    if i == 0 then 0
    else
      var start := WindowStart(turns, i - 1);
      if Silence(turns, i) || i - start >= WINDOW_MAX_TURNS then i else start
  }

  ghost predicate AreWindows(turns: seq<TurnRef>, windows: seq<Stretch>) {
    && Partitions(windows, |turns|)
    && forall i :: 0 < i < |turns| ==> (StartsAt(windows, i) <==> WindowStart(turns, i) == i)
  }

  // At most 50 turns and no silence inside.
  predicate Legal(turns: seq<TurnRef>, window: Stretch) {
    && window.0 < window.1 <= |turns|
    && window.1 - window.0 <= WINDOW_MAX_TURNS
    && forall i :: window.0 < i < window.1 ==> !Silence(turns, i)
  }

  lemma {:induction false} StartInWindow(turns: seq<TurnRef>, windows: seq<Stretch>, k: nat, i: nat)
    requires AreWindows(turns, windows) && k < |windows| && windows[k].0 <= i < windows[k].1
    ensures i < |turns| && WindowStart(turns, i) == windows[k].0
    decreases i
  {
    InOrder(windows, |turns|);
    if i == windows[k].0 {
      assert StartsAt(windows, i);
    } else {
      NoStartInside(windows, |turns|, k, i);
      StartInWindow(turns, windows, k, i - 1);
    }
  }

  // Every window is legal, and one ends only where it has to.
  lemma WindowsAreGreedy(turns: seq<TurnRef>, windows: seq<Stretch>, k: nat)
    requires AreWindows(turns, windows) && k < |windows|
    ensures Legal(turns, windows[k])
    ensures k > 0 ==>
      && windows[k - 1].0 < windows[k - 1].1 == windows[k].0 < |turns|
      && (Silence(turns, windows[k].0) || windows[k].0 - windows[k - 1].0 == WINDOW_MAX_TURNS)
  {
    InOrder(windows, |turns|);
    var (a, b) := windows[k];
    forall i | a < i < b ensures !Silence(turns, i) && i - a < WINDOW_MAX_TURNS {
      StartInWindow(turns, windows, k, i);
      StartInWindow(turns, windows, k, i - 1);
    }
    if b - a > 1 {
      StartInWindow(turns, windows, k, b - 1);
      StartInWindow(turns, windows, k, b - 2);
      assert !Silence(turns, b - 1);
    }
    if k > 0 {
      Adjacent(windows, |turns|, k);
      assert StartsAt(windows, a);
      StartInWindow(turns, windows, k - 1, a - 1);
      LegalBefore(turns, windows, k - 1);
    }
  }

  lemma LegalBefore(turns: seq<TurnRef>, windows: seq<Stretch>, k: nat)
    requires AreWindows(turns, windows) && k < |windows|
    ensures windows[k].1 - windows[k].0 <= WINDOW_MAX_TURNS
  {
    InOrder(windows, |turns|);
    var (a, b) := windows[k];
    if b - a > 1 {
      StartInWindow(turns, windows, k, b - 1);
      StartInWindow(turns, windows, k, b - 2);
      NoStartInside(windows, |turns|, k, b - 1);
    }
  }

  // A legal cutting that gets past the start of the k-th window takes more than k windows.
  lemma {:induction false} NoFewer(turns: seq<TurnRef>, windows: seq<Stretch>, others: seq<Stretch>, m: nat, k: nat)
    requires AreWindows(turns, windows) && k < |windows| && windows[k].0 < m <= |turns|
    requires Partitions(others, m) && forall j :: 0 <= j < |others| ==> Legal(turns, others[j])
    ensures |others| > k
    decreases |others|
  {
    if k > 0 {
      var last := |others| - 1;
      var a := others[last].0;
      WindowsAreGreedy(turns, windows, k);
      InOrder(windows, |turns|);
      assert Legal(turns, others[last]);
      assert windows[k - 1].0 < a;
      NoFewer(turns, windows, others[..last], a, k - 1);
    }
  }

  // No contiguous cutting into legal windows has fewer of them.
  lemma FewestWindows(turns: seq<TurnRef>, windows: seq<Stretch>, others: seq<Stretch>)
    requires AreWindows(turns, windows)
    requires Partitions(others, |turns|) && forall j :: 0 <= j < |others| ==> Legal(turns, others[j])
    ensures |windows| <= |others|
  {
    InOrder(windows, |turns|);
    if windows != [] {
      NoFewer(turns, windows, others, |turns|, |windows| - 1);
    }
  }

  lemma GrownByOne(turns: seq<TurnRef>, t: TurnRef, windows: seq<Stretch>)
    requires turns != [] && AreWindows(turns, windows) && WindowStart(turns + [t], |turns|) == |turns|
    ensures AreWindows(turns + [t], windows + [(|turns|, |turns| + 1)])
  {
    var n, more := |turns|, turns + [t];
    StartsUnmoved(turns, t);
    PushStarts(windows, (n, n + 1));
    hide WindowStart, StartsAt;
  }

  lemma LastLonger(parts: seq<Stretch>, n: nat)
    requires Partitions(parts, n) && n > 0
    ensures var last := |parts| - 1; parts != [] && Partitions(parts[..last] + [(parts[last].0, n + 1)], n + 1)
    ensures !StartsAt(parts, n)
  {
    InOrder(parts, n);
    var last := |parts| - 1;
    assert (parts[..last] + [(parts[last].0, n + 1)])[..last] == parts[..last];
  }

  lemma LastGrown(turns: seq<TurnRef>, t: TurnRef, windows: seq<Stretch>)
    requires turns != [] && AreWindows(turns, windows) && WindowStart(turns + [t], |turns|) != |turns|
    ensures var last := |windows| - 1;
      windows != [] && AreWindows(turns + [t], windows[..last] + [(windows[last].0, |turns| + 1)])
  {
    hide WindowStart, StartsAt, Partitions;
    var n, last := |turns|, |windows| - 1;
    LastLonger(windows, n);
    StartsUnmoved(turns, t);
    var before, start := windows[..last], windows[last].0;
    assert windows == before + [windows[last]];
    PushStarts(before, windows[last]);
    PushStarts(before, (start, n + 1));
  }

  // A turn that comes later leaves every window but the last as it was; it joins the last
  // window or starts one.
  lemma LaterTurn(turns: seq<TurnRef>, t: TurnRef, windows: seq<Stretch>, windows': seq<Stretch>)
    requires turns != [] && AreWindows(turns, windows) && AreWindows(turns + [t], windows')
    ensures var last := |windows| - 1; var n := |turns|;
      windows != [] && (windows' == windows + [(n, n + 1)] || windows' == windows[..last] + [(windows[last].0, n + 1)])
  {
    assert windows != [];
    hide StartsAt, Partitions, WindowStart;
    var n, last := |turns|, |windows| - 1;
    if WindowStart(turns + [t], n) == n {
      GrownByOne(turns, t, windows);
      SameCutting(windows + [(n, n + 1)], windows', n + 1);
    } else {
      LastGrown(turns, t, windows);
      SameCutting(windows[..last] + [(windows[last].0, n + 1)], windows', n + 1);
    }
  }

  lemma StartsUnmoved(turns: seq<TurnRef>, t: TurnRef)
    ensures forall i :: 0 <= i < |turns| ==> WindowStart(turns + [t], i) == WindowStart(turns, i)
  {
    forall i | 0 <= i < |turns| ensures WindowStart(turns + [t], i) == WindowStart(turns, i) {
      StartUnmoved(turns, t, i);
    }
  }

  lemma {:induction false} StartUnmoved(turns: seq<TurnRef>, t: TurnRef, i: nat)
    requires i < |turns|
    ensures WindowStart(turns + [t], i) == WindowStart(turns, i)
  {
    if i > 0 {
      StartUnmoved(turns, t, i - 1);
    }
  }

  lemma PushStarts(parts: seq<Stretch>, part: Stretch)
    ensures forall i :: StartsAt(parts + [part], i) <==> StartsAt(parts, i) || i == part.0
    ensures (parts + [part])[..|parts|] == parts
  {
    forall i ensures StartsAt(parts + [part], i) <==> StartsAt(parts, i) || i == part.0 {
      if k :| 0 <= k < |parts| && parts[k].0 == i {
        assert (parts + [part])[k].0 == i;
      }
      assert (parts + [part])[|parts|].0 == part.0;
    }
  }

  // A cutting under way: what lies before `start` is cut where `begins` says.
  ghost predicate CutSoFar(parts: seq<Stretch>, start: nat, i: nat, begins: int -> bool) {
    && start < i && Partitions(parts, start)
    && (forall j: nat :: 0 < j < i ==> (StartsAt(parts, j) || j == start <==> begins(j)))
    && (forall j: nat :: StartsAt(parts, j) ==> j < start)
  }

  lemma NothingCut(begins: int -> bool)
    ensures CutSoFar([], 0, 1, begins)
  {
  }

  lemma CutMore(parts: seq<Stretch>, start: nat, i: nat, begins: int -> bool)
    requires CutSoFar(parts, start, i, begins)
    ensures if begins(i) then CutSoFar(parts + [(start, i)], i, i + 1, begins)
      else CutSoFar(parts, start, i + 1, begins)
  {
    PushStarts(parts, (start, i));
  }

  lemma CutDone(parts: seq<Stretch>, start: nat, n: nat, begins: int -> bool)
    requires CutSoFar(parts, start, n, begins)
    ensures Partitions(parts + [(start, n)], n)
    ensures forall i :: 0 < i < n ==> (StartsAt(parts + [(start, n)], i) <==> begins(i))
  {
    PushStarts(parts, (start, n));
  }

  method SplitWindows(turns: seq<TurnRef>) returns (windows: seq<Stretch>)
    requires turns != []
    ensures AreWindows(turns, windows)
  {
    ghost var begins := (j: int) => 0 <= j < |turns| && WindowStart(turns, j) == j;
    windows := [];
    var start := 0;
    NothingCut(begins);
    for i := 1 to |turns|
      invariant start == WindowStart(turns, i - 1) && CutSoFar(windows, start, i, begins)
    {
      var gap := turns[i].ts - turns[i - 1].ts;
      CutMore(windows, start, i, begins);
      if gap > WINDOW_GAP_MS || i - start >= WINDOW_MAX_TURNS {
        windows := windows + [(start, i)];
        start := i;
      }
    }
    CutDone(windows, start, |turns|, begins);
    windows := windows + [(start, |turns|)];
  }

  // --- what a segment says about its turns --------------------------------

  function Mentions(turns: seq<TurnRef>, name: string): nat {
    if turns == [] then 0 else Mentions(turns[..|turns| - 1], name) + multiset(turns[|turns| - 1].entities)[name]
  }

  ghost predicate IsTally(turns: seq<TurnRef>, counts: map<string, nat>) {
    && (forall name :: name in counts <==> Mentions(turns, name) > 0)
    && (forall name :: name in counts ==> counts[name] == Mentions(turns, name))
  }

  // The eight most mentioned, ties alphabetical.
  ghost predicate IsSummary(turns: seq<TurnRef>, names: seq<string>) {
    exists counts, list :: IsTally(turns, counts) && IsStrongest(counts, SEGMENT_ENTITIES, list)
      && names == NamesOf(list)
  }

  lemma TallyIsOne(turns: seq<TurnRef>, counts: map<string, nat>, counts': map<string, nat>)
    requires IsTally(turns, counts) && IsTally(turns, counts')
    ensures counts == counts'
  {
  }

  lemma SummaryIsOne(turns: seq<TurnRef>, names: seq<string>, names': seq<string>)
    requires IsSummary(turns, names) && IsSummary(turns, names')
    ensures names == names'
  {
    hide IsTally, IsStrongest;
    var counts, list :| IsTally(turns, counts) && IsStrongest(counts, SEGMENT_ENTITIES, list) && names == NamesOf(list);
    var counts', list' :| IsTally(turns, counts') && IsStrongest(counts', SEGMENT_ENTITIES, list')
      && names' == NamesOf(list');
    TallyIsOne(turns, counts, counts');
    StrongestIsOne(counts, SEGMENT_ENTITIES, list, list');
  }

  ghost predicate IsSegment(level: Level, turns: seq<TurnRef>, segment: Segment)
    requires turns != []
  {
    var last := turns[|turns| - 1];
    && segment.level == level
    && segment.startTs == turns[0].ts && segment.endTs == last.ts
    && segment.firstTurnId == turns[0].id && segment.lastTurnId == last.id
    && segment.turns == |turns|
    && IsSummary(turns, segment.entities)
  }

  lemma SegmentIsOne(level: Level, turns: seq<TurnRef>, segment: Segment, segment': Segment)
    requires turns != [] && IsSegment(level, turns, segment) && IsSegment(level, turns, segment')
    ensures segment == segment'
  {
    hide IsSummary;
    SummaryIsOne(turns, segment.entities, segment'.entities);
  }

  lemma NamesListed(counts: map<string, nat>, list: seq<Count>)
    requires IsStrongest(counts, SEGMENT_ENTITIES, list)
    ensures |NamesOf(list)| <= SEGMENT_ENTITIES && Distinct(NamesOf(list))
    ensures forall name :: name in NamesOf(list) ==> name in counts
  {
    forall name | name in NamesOf(list) ensures name in counts {
      var i :| 0 <= i < |list| && NamesOf(list)[i] == name;
    }
  }

  // A segment names at most eight entities, each once and mentioned.
  lemma SegmentNames(level: Level, turns: seq<TurnRef>, segment: Segment)
    requires turns != [] && IsSegment(level, turns, segment)
    ensures |segment.entities| <= SEGMENT_ENTITIES && Distinct(segment.entities)
    ensures forall name :: name in segment.entities ==> Mentions(turns, name) > 0
  {
    var counts, list :|
      IsTally(turns, counts) && IsStrongest(counts, SEGMENT_ENTITIES, list) && segment.entities == NamesOf(list);
    NamesListed(counts, list);
    hide IsStrongest;
  }

  // The mentions of the turns and of some more names.
  ghost predicate CountsTo(turns: seq<TurnRef>, more: multiset<string>, counts: map<string, nat>) {
    && (forall name :: name in counts <==> Mentions(turns, name) + more[name] > 0)
    && (forall name :: name in counts ==> counts[name] == Mentions(turns, name) + more[name])
  }

  lemma CountOne(turns: seq<TurnRef>, more: multiset<string>, counts: map<string, nat>, name: string)
    requires CountsTo(turns, more, counts)
    ensures CountsTo(turns, more + multiset{name}, counts[name := (if name in counts then counts[name] else 0) + 1])
  {
    hide Mentions;
  }

  lemma CountedTurn(turns: seq<TurnRef>, i: nat, counts: map<string, nat>)
    requires i < |turns|
    ensures CountsTo(turns[..i], multiset{}, counts) <==> IsTally(turns[..i], counts)
    ensures CountsTo(turns[..i], multiset(turns[i].entities), counts) <==> IsTally(turns[..i + 1], counts)
  {
    assert turns[..i + 1][..i] == turns[..i];
  }

  method Tally(turns: seq<TurnRef>) returns (counts: map<string, nat>)
    ensures IsTally(turns, counts)
  {
    hide Mentions, CountsTo;
    counts := map[];
    NothingTallied();
    for i := 0 to |turns|
      invariant IsTally(turns[..i], counts)
    {
      var entities := turns[i].entities;
      CountedTurn(turns, i, counts);
      for j := 0 to |entities|
        invariant CountsTo(turns[..i], multiset(entities[..j]), counts)
      {
        assert entities[..j + 1] == entities[..j] + [entities[j]];
        CountOne(turns[..i], multiset(entities[..j]), counts, entities[j]);
        counts := counts[entities[j] := (if entities[j] in counts then counts[entities[j]] else 0) + 1];
      }
      assert entities[..|entities|] == entities;
      CountedTurn(turns, i, counts);
    }
    assert turns[..|turns|] == turns;
  }

  lemma NothingTallied()
    ensures IsTally([], map[])
  {
  }

  method Build(level: Level, turns: seq<TurnRef>) returns (segment: Segment)
    requires turns != []
    ensures IsSegment(level, turns, segment)
  {
    var counts := Tally(turns);
    var list := Strongest(counts, SEGMENT_ENTITIES);
    var last := turns[|turns| - 1];
    segment := Segment(level, turns[0].ts, last.ts, turns[0].id, last.id, |turns|, NamesOf(list));
  }

  // --- episodes -----------------------------------------------------------

  // Nothing mentioned on either side is full overlap.
  function Jaccard(a: seq<string>, b: seq<string>): real
    requires Distinct(a) && Distinct(b)
  {
    SharedCounts(a, b);
    if a == [] && b == [] then 1.0
    else Shared(a, b) as real / (|a| + |b| - Shared(a, b)) as real
  }

  lemma Threshold(inter: nat, all: nat)
    requires 0 < all <= 2 * SEGMENT_ENTITIES
    ensures inter as real / all as real != EPISODE_MIN_OVERLAP
    ensures inter as real / all as real < EPISODE_MIN_OVERLAP <==> 20 * inter < 3 * all
  {
    var ratio := inter as real / all as real;
    assert ratio * all as real == inter as real;
    SameSign(ratio, all as real);
    assert 20 * inter != 3 * all;
  }

  lemma SameSign(ratio: real, d: real)
    requires d > 0.0
    ensures ratio < EPISODE_MIN_OVERLAP <==> ratio * d < EPISODE_MIN_OVERLAP * d
    ensures ratio == EPISODE_MIN_OVERLAP <==> ratio * d == EPISODE_MIN_OVERLAP * d
  {
    assert (ratio - EPISODE_MIN_OVERLAP) * d == ratio * d - EPISODE_MIN_OVERLAP * d;
  }

  // The overlap as sets; with eight names a side it never sits on the threshold, so the
  // comparison does not depend on how the quotient is rounded.
  lemma OverlapIsExact(a: seq<string>, b: seq<string>)
    requires Distinct(a) && Distinct(b) && |a| <= SEGMENT_ENTITIES && |b| <= SEGMENT_ENTITIES
    ensures Jaccard(a, b) != EPISODE_MIN_OVERLAP
    ensures Jaccard(a, b) < EPISODE_MIN_OVERLAP
      <==> (a != [] || b != []) && 20 * |Elements(a) * Elements(b)| < 3 * |Elements(a) + Elements(b)|
  {
    hide Shared, Elements, Distinct;
    SharedCounts(a, b);
    if a != [] || b != [] {
      Threshold(Shared(a, b), |a| + |b| - Shared(a, b));
    }
  }

  ghost predicate AreEpisodes(segments: seq<Segment>, episodes: seq<Stretch>) {
    && (forall k :: 0 <= k < |segments| ==> Distinct(segments[k].entities))
    && Partitions(episodes, |segments|)
    && forall i :: 0 < i < |segments| ==>
         (StartsAt(episodes, i) <==> Jaccard(segments[i - 1].entities, segments[i].entities) < EPISODE_MIN_OVERLAP)
  }

  ghost predicate Breaks(segments: seq<Segment>, j: int) {
    0 < j < |segments| && Distinct(segments[j - 1].entities) && Distinct(segments[j].entities) &&
    Jaccard(segments[j - 1].entities, segments[j].entities) < EPISODE_MIN_OVERLAP
  }

  lemma BreaksMakeEpisodes(segments: seq<Segment>, episodes: seq<Stretch>)
    requires forall k :: 0 <= k < |segments| ==> Distinct(segments[k].entities)
    requires Partitions(episodes, |segments|)
    requires forall i :: 0 < i < |segments| ==> (StartsAt(episodes, i) <==> Breaks(segments, i))
    ensures AreEpisodes(segments, episodes)
  {
    hide Partitions, StartsAt, Jaccard, Distinct;
  }

  method SplitEpisodes(segments: seq<Segment>) returns (episodes: seq<Stretch>)
    requires segments != [] && forall k :: 0 <= k < |segments| ==> Distinct(segments[k].entities)
    ensures AreEpisodes(segments, episodes)
  {
    hide CutSoFar, Partitions, StartsAt, Jaccard, Distinct, AreEpisodes;
    ghost var begins := (j: int) => Breaks(segments, j);
    episodes := [];
    var start := 0;
    NothingCut(begins);
    for i := 1 to |segments|
      invariant CutSoFar(episodes, start, i, begins)
    {
      CutMore(episodes, start, i, begins);
      assert Distinct(segments[i - 1].entities) && Distinct(segments[i].entities);
      if Jaccard(segments[i - 1].entities, segments[i].entities) < EPISODE_MIN_OVERLAP {
        episodes := episodes + [(start, i)];
        start := i;
      }
    }
    CutDone(episodes, start, |segments|, begins);
    episodes := episodes + [(start, |segments|)];
    BreaksMakeEpisodes(segments, episodes);
  }

  // --- a whole session ----------------------------------------------------

  // The segments in the order they are listed: the windows, then the episodes, each built
  // from the turns it spans.
  ghost predicate IsSegmentation(turns: seq<TurnRef>, windows: seq<Stretch>, episodes: seq<Stretch>,
                                 segments: seq<Segment>) {
    && AreWindows(turns, windows)
    && |windows| <= |segments|
    && AreEpisodes(segments[..|windows|], episodes)
    && AllBuilt(Window, turns, windows, segments[..|windows|])
    && AllBuilt(Episode, turns, Spans(windows, episodes), segments[|windows|..])
  }

  ghost predicate Segmented(turns: seq<TurnRef>, segments: seq<Segment>) {
    if turns == [] then segments == [] else
      exists windows, episodes :: IsSegmentation(turns, windows, episodes, segments)
  }

  ghost predicate AllBuilt(level: Level, turns: seq<TurnRef>, parts: seq<Stretch>, segments: seq<Segment>) {
    |segments| == |parts| && forall k :: 0 <= k < |parts| ==> Built(level, turns, parts[k], segments[k])
  }

  ghost predicate Built(level: Level, turns: seq<TurnRef>, part: Stretch, segment: Segment) {
    part.0 < part.1 <= |turns| && IsSegment(level, turns[part.0..part.1], segment)
  }

  // The turns of a run of windows.
  function Span(windows: seq<Stretch>, episode: Stretch): Stretch {
    if episode.0 < episode.1 <= |windows| then (windows[episode.0].0, windows[episode.1 - 1].1) else (0, 0)
  }

  function Spans(windows: seq<Stretch>, episodes: seq<Stretch>): (spans: seq<Stretch>)
    ensures |spans| == |episodes| && forall k :: 0 <= k < |episodes| ==> spans[k] == Span(windows, episodes[k])
  {
    seq(|episodes|, k requires 0 <= k < |episodes| => Span(windows, episodes[k]))
  }

  method BuildAll(level: Level, turns: seq<TurnRef>, parts: seq<Stretch>) returns (segments: seq<Segment>)
    requires forall k :: 0 <= k < |parts| ==> parts[k].0 < parts[k].1 <= |turns|
    ensures AllBuilt(level, turns, parts, segments)
    ensures forall k :: 0 <= k < |segments| ==> Distinct(segments[k].entities)
  {
    hide IsSegment, Distinct;
    segments := [];
    for k := 0 to |parts|
      invariant |segments| == k
      invariant forall i :: 0 <= i < k ==> Built(level, turns, parts[i], segments[i]) && Distinct(segments[i].entities)
    {
      var (a, b) := parts[k];
      var segment := Build(level, turns[a..b]);
      SegmentNames(level, turns[a..b], segment);
      segments := segments + [segment];
    }
  }

  lemma WindowsFit(turns: seq<TurnRef>, windows: seq<Stretch>)
    requires turns != [] && AreWindows(turns, windows)
    ensures windows != [] && forall k :: 0 <= k < |windows| ==> windows[k].0 < windows[k].1 <= |turns|
  {
    InOrder(windows, |turns|);
  }

  // A run of windows spans the turns of its windows, and the episodes' spans cut the session.
  lemma {:induction false} SpansCut(n: nat, windows: seq<Stretch>, m: nat, episodes: seq<Stretch>)
    requires Partitions(windows, n) && m <= |windows| && Partitions(episodes, m)
    ensures Partitions(Spans(windows, episodes), if m == 0 then 0 else windows[m - 1].1)
  {
    if episodes != [] {
      var last := |episodes| - 1;
      InOrder(windows, n);
      InOrder(episodes, m);
      SpansCut(n, windows, episodes[last].0, episodes[..last]);
      assert Spans(windows, episodes)[..last] == Spans(windows, episodes[..last]);
      Adjacent(windows, n, episodes[last].0);
    }
  }

  lemma EpisodeSpans(turns: seq<TurnRef>, windows: seq<Stretch>, segments: seq<Segment>, episodes: seq<Stretch>)
    requires turns != [] && AreWindows(turns, windows) && |segments| == |windows| && AreEpisodes(segments, episodes)
    ensures Partitions(Spans(windows, episodes), |turns|)
  {
    WindowsFit(turns, windows);
    SpansCut(|turns|, windows, |windows|, episodes);
  }

  lemma PartsFit(parts: seq<Stretch>, n: nat)
    requires Partitions(parts, n)
    ensures forall k :: 0 <= k < |parts| ==> parts[k].0 < parts[k].1 <= n
  {
    InOrder(parts, n);
  }

  method SegmentSession(turns: seq<TurnRef>) returns (segments: seq<Segment>)
    ensures Segmented(turns, segments)
  {
    hide AreWindows, AreEpisodes, AllBuilt, Partitions, Spans, Distinct;
    segments := [];
    if turns == [] {
      return;
    }
    var ws := SplitWindows(turns);
    WindowsFit(turns, ws);
    var windowSegments := BuildAll(Window, turns, ws);
    AsMany(Window, turns, ws, windowSegments);
    var es := SplitEpisodes(windowSegments);
    EpisodeSpans(turns, ws, windowSegments, es);
    PartsFit(Spans(ws, es), |turns|);
    var episodeSegments := BuildAll(Episode, turns, Spans(ws, es));
    segments := windowSegments + episodeSegments;
    assert segments[..|ws|] == windowSegments && segments[|ws|..] == episodeSegments;
    assert IsSegmentation(turns, ws, es, segments);
  }

  lemma AsMany(level: Level, turns: seq<TurnRef>, parts: seq<Stretch>, segments: seq<Segment>)
    requires AllBuilt(level, turns, parts, segments)
    ensures |segments| == |parts|
  {
  }

  lemma AllBuiltIsOne(level: Level, turns: seq<TurnRef>, parts: seq<Stretch>, segments: seq<Segment>,
                      segments': seq<Segment>)
    requires AllBuilt(level, turns, parts, segments) && AllBuilt(level, turns, parts, segments')
    ensures segments == segments'
  {
    hide IsSegment;
    forall k | 0 <= k < |parts| ensures segments[k] == segments'[k] {
      var (a, b) := parts[k];
      assert Built(level, turns, parts[k], segments[k]) && Built(level, turns, parts[k], segments'[k]);
      SegmentIsOne(level, turns[a..b], segments[k], segments'[k]);
    }
  }

  lemma EpisodesAreOne(segments: seq<Segment>, episodes: seq<Stretch>, episodes': seq<Stretch>)
    requires AreEpisodes(segments, episodes) && AreEpisodes(segments, episodes')
    ensures episodes == episodes'
  {
    hide Partitions, Jaccard, StartsAt;
    forall i | 0 < i < |segments| ensures StartsAt(episodes, i) <==> StartsAt(episodes', i) {
      assert Distinct(segments[i - 1].entities) && Distinct(segments[i].entities);
    }
    SameCutting(episodes, episodes', |segments|);
  }

  // The answer is determined by the turns in order.
  lemma SegmentationIsOne(turns: seq<TurnRef>, windows: seq<Stretch>, episodes: seq<Stretch>, segments: seq<Segment>,
                          windows': seq<Stretch>, episodes': seq<Stretch>, segments': seq<Segment>)
    requires turns != [] && IsSegmentation(turns, windows, episodes, segments)
      && IsSegmentation(turns, windows', episodes', segments')
    ensures windows == windows' && episodes == episodes' && segments == segments'
  {
    hide AllBuilt, AreEpisodes, Partitions, WindowStart;
    SameCutting(windows, windows', |turns|);
    var w := |windows|;
    AllBuiltIsOne(Window, turns, windows, segments[..w], segments'[..w]);
    EpisodesAreOne(segments[..w], episodes, episodes');
    AllBuiltIsOne(Episode, turns, Spans(windows, episodes), segments[w..], segments'[w..]);
    assert segments == segments[..w] + segments[w..] && segments' == segments'[..w] + segments'[w..];
  }

  lemma SegmentedIsOne(turns: seq<TurnRef>, segments: seq<Segment>, segments': seq<Segment>)
    requires Segmented(turns, segments) && Segmented(turns, segments')
    ensures segments == segments'
  {
    hide IsSegmentation;
    if turns != [] {
      var windows, episodes :| IsSegmentation(turns, windows, episodes, segments);
      var windows', episodes' :| IsSegmentation(turns, windows', episodes', segments');
      SegmentationIsOne(turns, windows, episodes, segments, windows', episodes', segments');
    }
  }

  function TurnsIn(segments: seq<Segment>): nat {
    if segments == [] then 0 else TurnsIn(segments[..|segments| - 1]) + segments[|segments| - 1].turns
  }

  lemma {:induction false} TurnsOfParts(level: Level, turns: seq<TurnRef>, parts: seq<Stretch>, segments: seq<Segment>)
    requires AllBuilt(level, turns, parts, segments)
    ensures TurnsIn(segments) == Lengths(parts)
  {
    if parts != [] {
      assert Built(level, turns, parts[|parts| - 1], segments[|parts| - 1]);
      TurnsOfParts(level, turns, parts[..|parts| - 1], segments[..|segments| - 1]);
    }
  }

  // The windows' turn counts sum to the session's, and so do the episodes'.
  lemma TurnsAddUp(turns: seq<TurnRef>, windows: seq<Stretch>, episodes: seq<Stretch>, segments: seq<Segment>)
    requires turns != [] && IsSegmentation(turns, windows, episodes, segments)
    ensures TurnsIn(segments[..|windows|]) == |turns| == TurnsIn(segments[|windows|..])
  {
    hide AllBuilt, AreEpisodes, WindowStart, Spans, TurnsIn, Lengths, StartsAt, Partitions;
    TurnsOfParts(Window, turns, windows, segments[..|windows|]);
    LengthsSum(windows, |turns|);
    EpisodeSpans(turns, windows, segments[..|windows|], episodes);
    TurnsOfParts(Episode, turns, Spans(windows, episodes), segments[|windows|..]);
    LengthsSum(Spans(windows, episodes), |turns|);
  }

  lemma BuiltFromTheStart(turns: seq<TurnRef>, t: TurnRef, part: Stretch, segment: Segment, segment': Segment)
    requires Built(Window, turns, part, segment) && Built(Window, turns + [t], part, segment')
    ensures segment == segment'
  {
    hide IsSegment;
    assert (turns + [t])[part.0..part.1] == turns[part.0..part.1];
    SegmentIsOne(Window, turns[part.0..part.1], segment, segment');
  }

  // A turn that comes later changes no window's segment but the last's.
  lemma LaterTurnKeepsSegments(turns: seq<TurnRef>, t: TurnRef, windows: seq<Stretch>, episodes: seq<Stretch>,
                               segments: seq<Segment>,
                               windows': seq<Stretch>, episodes': seq<Stretch>, segments': seq<Segment>)
    requires turns != [] && IsSegmentation(turns, windows, episodes, segments)
      && IsSegmentation(turns + [t], windows', episodes', segments')
    ensures 0 < |windows| <= |windows'| <= |windows| + 1
    ensures segments[..|windows| - 1] == segments'[..|windows| - 1]
  {
    hide AreWindows, AreEpisodes, Spans, Built;
    LaterTurn(turns, t, windows, windows');
    forall k | 0 <= k < |windows| - 1 ensures segments[k] == segments'[k] {
      assert windows'[k] == windows[k];
      assert Built(Window, turns, windows[k], segments[..|windows|][k]);
      assert Built(Window, turns + [t], windows'[k], segments'[..|windows'|][k]);
      BuiltFromTheStart(turns, t, windows[k], segments[k], segments'[k]);
    }
  }

  // --- arrival order ------------------------------------------------------

  // The order a session's turns are read back in.
  const BY_TIME: (TurnRef, TurnRef) -> bool := (x: TurnRef, y: TurnRef) => x.ts < y.ts || (x.ts == y.ts && x.id <= y.id)

  // Turns with distinct ids segment the same whatever order they arrived in.
  lemma ArrivalOrderDoesNotMatter(arrived: seq<TurnRef>, arrived': seq<TurnRef>)
    requires multiset(arrived) == multiset(arrived')
    requires forall x, y :: x in arrived && y in arrived && x.id == y.id ==> x == y
    ensures Sort(arrived, BY_TIME) == Sort(arrived', BY_TIME)
  {
    hide Sort, SortedBy;
    var xs, ys := Sort(arrived, BY_TIME), Sort(arrived', BY_TIME);
    SortPermutes(arrived, BY_TIME);
    SortPermutes(arrived', BY_TIME);
    SortSorts(arrived, BY_TIME);
    SortSorts(arrived', BY_TIME);
    forall x | x in xs ensures x in arrived {
      assert x in multiset(xs);
    }
    assert NoTies(xs, BY_TIME);
    SortedOnlyOneWay(xs, ys, BY_TIME);
  }

  // Read back in order and segmented.
  method SegmentArrived(arrived: seq<TurnRef>) returns (segments: seq<Segment>)
    ensures Segmented(Sort(arrived, BY_TIME), segments)
  {
    segments := SegmentSession(Sort(arrived, BY_TIME));
  }

  lemma ArrivedSegmentsAreOne(arrived: seq<TurnRef>, arrived': seq<TurnRef>, segments: seq<Segment>,
                              segments': seq<Segment>)
    requires multiset(arrived) == multiset(arrived')
    requires forall x, y :: x in arrived && y in arrived && x.id == y.id ==> x == y
    requires Segmented(Sort(arrived, BY_TIME), segments) && Segmented(Sort(arrived', BY_TIME), segments')
    ensures segments == segments'
  {
    hide Segmented, Sort;
    ArrivalOrderDoesNotMatter(arrived, arrived');
    SegmentedIsOne(Sort(arrived, BY_TIME), segments, segments');
  }
}
