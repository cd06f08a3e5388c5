/** Rolling counters: per-minute buckets pruned to an hour, and headline figures of the run. */
module RollingMetrics {
  import opened Optional
  import opened Lists
  import opened Sorting

  const SERIES_MINUTES: nat := 60
  const RESERVOIR: nat := 2000
  const MINUTE_MS: int := 60_000

  // When the minute of `now` began, in milliseconds.
  function MinuteOf(now: int): int { now / MINUTE_MS * MINUTE_MS }

  function OldestOf(minute: int): int { minute - (SERIES_MINUTES - 1) * MINUTE_MS }

  datatype Bucket = Bucket(recalls: nat, ingested: nat, errors: nat, durations: seq<real>)

  const EMPTY: Bucket := Bucket(0, 0, 0, [])

  // --- everything that ever happened --------------------------------------

  datatype Happening = Recall(ms: real) | Failure | Ingest(turns: nat)

  datatype Event = Event(minute: int, what: Happening)

  // One event as it changes a bucket.
  function Counted(b: Bucket, what: Happening): Bucket {
    match what
    case Recall(ms) => b.(recalls := b.recalls + 1, durations := b.durations + [ms])
    case Failure => b.(errors := b.errors + 1)
    case Ingest(turns) => b.(ingested := b.ingested + turns)
  }

  // What the full log says of one minute.
  function InMinute(log: seq<Event>, minute: int): Bucket {
    if log == [] then EMPTY
    else
      var before, last := InMinute(log[..|log| - 1], minute), log[|log| - 1];
      if last.minute == minute then Counted(before, last.what) else before
  }

  function Durations(log: seq<Event>): seq<real> {
    if log == [] then []
    else
      var before, last := Durations(log[..|log| - 1]), log[|log| - 1];
      if last.what.Recall? then before + [last.what.ms] else before
  }

  function Failures(log: seq<Event>): nat {
    if log == [] then 0 else Failures(log[..|log| - 1]) + if log[|log| - 1].what.Failure? then 1 else 0
  }

  function Calls(log: seq<Event>): nat {
    if log == [] then 0 else Calls(log[..|log| - 1]) + if log[|log| - 1].what.Ingest? then 1 else 0
  }

  function Turns(log: seq<Event>): nat {
    if log == [] then 0
    else
      var e := log[|log| - 1];
      Turns(log[..|log| - 1]) + if e.what.Ingest? then e.what.turns else 0
  }

  // --- percentiles --------------------------------------------------------

  const ASCENDING: (real, real) -> bool := (a: real, b: real) => a <= b

  // The nearest rank: ceil(p n / 100) - 1, kept in range.
  function Rank(n: nat, p: nat): (index: nat)
    requires n > 0
    ensures index < n
  {
    var ceiling := (p * n + 99) / 100;
    var index := if ceiling < 1 then 0 else ceiling - 1;
    if index < n then index else n - 1
  }

  function Percentile(sorted: seq<real>, p: nat): Option<real> {
    if sorted == [] then None else Some(sorted[Rank(|sorted|, p)])
  }

  // At least p in a hundred values lie at or before the rank, and fewer before it.
  lemma RankIsNearest(n: nat, p: nat)
    requires n > 0 && 0 < p <= 100
    ensures 100 * (Rank(n, p) + 1) >= p * n > 100 * Rank(n, p)
  {
    var product := p * n;
    assert 0 < product <= 100 * n;
  }

  lemma RankRises(n: nat, p: nat, q: nat)
    requires n > 0 && p <= q
    ensures Rank(n, p) <= Rank(n, q)
  {
    assert p * n <= q * n;
  }

  // A higher percentile is no smaller, and none exceeds a bound on the values.
  lemma PercentilesRise(values: seq<real>, p: nat, q: nat, bound: real)
    requires values != [] && p <= q && forall x :: x in values ==> x <= bound
    ensures var sorted := Sort(values, ASCENDING);
      && Percentile(sorted, p).Some? && Percentile(sorted, q).Some?
      && Percentile(sorted, p).value <= Percentile(sorted, q).value <= bound
  {
    var sorted := Sort(values, ASCENDING);
    SortPermutes(values, ASCENDING);
    SortSorts(values, ASCENDING);
    RankRises(|sorted|, p, q);
    var i, j := Rank(|sorted|, p), Rank(|sorted|, q);
    assert i < j ==> ASCENDING(sorted[i], sorted[j]);
    assert sorted[j] in multiset(sorted) && sorted[j] in values;
  }

  // --- at most an hour of buckets -----------------------------------------

  lemma WholeMinutes(k: int, from: int, n: nat)
    requires k % MINUTE_MS == from % MINUTE_MS && from <= k < from + n * MINUTE_MS
    ensures k <= from + (n - 1) * MINUTE_MS
  {
    var q := (k - from) / MINUTE_MS;
    assert k - from == q * MINUTE_MS;
  }

  lemma {:induction false} MinutesInWindow(keys: set<int>, from: int, n: nat)
    requires forall k :: k in keys ==> k % MINUTE_MS == from % MINUTE_MS && from <= k < from + n * MINUTE_MS
    ensures |keys| <= n
  {
    if n == 0 {
      assert forall k :: k !in keys;
      assert keys == {};
    } else {
      var last := from + (n - 1) * MINUTE_MS;
      MinutesInWindow(keys - {last}, from, n - 1) by {
        forall k | k in keys - {last} ensures k < last {
          WholeMinutes(k, from, n);
        }
      }
      assert keys <= (keys - {last}) + {last};
      SubsetSize(keys, (keys - {last}) + {last});
    }
  }

  // --- the counters -------------------------------------------------------

  datatype Minute = Minute(minute: int, recalls: nat, ingested: nat, errors: nat, p50: Option<real>, p95: Option<real>)

  datatype HealthSnapshot = HealthSnapshot(
    startedAt: int, uptimeSeconds: int, openMs: real,
    recalls: nat, recallErrors: nat, p50: Option<real>, p95: Option<real>, max: Option<real>,
    ingestCalls: nat, ingestTurns: nat, series: seq<Minute>)

  // A bucket as the series shows it.
  function Shown(minute: int, b: Bucket): Minute {
    var sorted := Sort(b.durations, ASCENDING);
    Minute(minute, b.recalls, b.ingested, b.errors, Percentile(sorted, 50), Percentile(sorted, 95))
  }

  function At(buckets: map<int, Bucket>, minute: int): Bucket { if minute in buckets then buckets[minute] else EMPTY }

  // From `horizon` on, the buckets say what the log says; they hold an hour of minutes.
  ghost predicate Exact(log: seq<Event>, buckets: map<int, Bucket>, horizon: int, latest: int) {
    && horizon % MINUTE_MS == 0 && horizon <= OldestOf(latest)
    && (forall k :: k in buckets ==> k % MINUTE_MS == 0 && horizon <= k <= horizon + (SERIES_MINUTES - 1) * MINUTE_MS)
    && (forall m :: m >= horizon ==> At(buckets, m) == InMinute(log, m))
    && (forall i :: 0 <= i < |log| ==> log[i].minute <= latest)
  }

  lemma MinuteShape(now: int)
    ensures MinuteOf(now) % MINUTE_MS == 0 && MinuteOf(now) <= now < MinuteOf(now) + MINUTE_MS
  {
  }

  lemma LogGrows(log: seq<Event>, e: Event, m: int)
    ensures InMinute(log + [e], m) == if e.minute == m then Counted(InMinute(log, m), e.what) else InMinute(log, m)
    ensures Durations(log + [e]) == if e.what.Recall? then Durations(log) + [e.what.ms] else Durations(log)
    ensures Failures(log + [e]) == Failures(log) + (if e.what.Failure? then 1 else 0)
    ensures Calls(log + [e]) == Calls(log) + (if e.what.Ingest? then 1 else 0)
    ensures Turns(log + [e]) == Turns(log) + (if e.what.Ingest? then e.what.turns else 0)
  {
    assert (log + [e])[..|log|] == log;
  }

  function Pruned(buckets: map<int, Bucket>, oldest: int): map<int, Bucket> {
    map k | k in buckets && k >= oldest :: buckets[k]
  }

  method PruneOld(buckets: map<int, Bucket>, oldest: int) returns (kept: map<int, Bucket>)
    ensures kept == Pruned(buckets, oldest)
  {
    kept := buckets;
    var left := buckets.Keys;
    while left != {}
      invariant left <= buckets.Keys
      invariant kept == map k | k in buckets && (k >= oldest || k in left) :: buckets[k]
      decreases |left|
    {
      SomeInt(left);
      var key :| key in left;
      left := left - {key};
      if key < oldest {
        kept := kept - {key};
      }
    }
  }

  // The bucket of a minute, made and the others pruned if there was none.
  function Opened(buckets: map<int, Bucket>, minute: int): map<int, Bucket> {
    if minute in buckets then buckets else Pruned(buckets[minute := EMPTY], OldestOf(minute))
  }

  lemma CountKeepsExact(log: seq<Event>, buckets: map<int, Bucket>, horizon: int, latest: int, e: Event)
    returns (horizon': int)
    requires Exact(log, buckets, horizon, latest) && e.minute % MINUTE_MS == 0 && latest <= e.minute
    ensures var b := Opened(buckets, e.minute);
      e.minute in b && Exact(log + [e], b[e.minute := Counted(b[e.minute], e.what)], horizon', e.minute)
  {
    var minute := e.minute;
    var b := Opened(buckets, minute);
    horizon' := if minute in buckets then horizon else OldestOf(minute);
    var after := b[minute := Counted(b[minute], e.what)];
    forall m | m >= horizon' ensures At(after, m) == InMinute(log + [e], m) {
      LogGrows(log, e, m);
      assert At(buckets, m) == InMinute(log, m);
    }
  }

  lemma PruneKeepsExact(log: seq<Event>, buckets: map<int, Bucket>, horizon: int, latest: int, minute: int)
    requires Exact(log, buckets, horizon, latest) && minute % MINUTE_MS == 0 && latest <= minute
    ensures Exact(log, Pruned(buckets, OldestOf(minute)), OldestOf(minute), minute)
  {
    var after := Pruned(buckets, OldestOf(minute));
    forall m | m >= OldestOf(minute) ensures At(after, m) == InMinute(log, m) {
      assert At(buckets, m) == InMinute(log, m);
    }
  }

  // The map never holds more than sixty minutes.
  lemma AtMostAnHour(log: seq<Event>, buckets: map<int, Bucket>, horizon: int, latest: int)
    requires Exact(log, buckets, horizon, latest)
    ensures |buckets| <= SERIES_MINUTES
  {
    MinutesInWindow(buckets.Keys, horizon, SERIES_MINUTES);
    assert |buckets| == |buckets.Keys|;
  }

  class Metrics {
    const startedAt: int
    var openMs: real
    var buckets: map<int, Bucket>
    var reservoir: seq<real>
    var recallCount: nat
    var recallErrors: nat
    var maxMs: Option<real>
    var ingestCalls: nat
    var ingestTurns: nat

    // All events, whether the clock has only gone forward, and where it has got to.
    ghost var log: seq<Event>
    ghost var steady: bool
    ghost var latest: int
    ghost var horizon: int

    ghost predicate Valid()
      reads this
    {
      && (steady ==> Exact(log, buckets, horizon, latest))
      && recallCount == |Durations(log)| && recallErrors == Failures(log)
      && ingestCalls == Calls(log) && ingestTurns == Turns(log)
      && IsMax(Durations(log), maxMs)
      && |reservoir| == (if recallCount < RESERVOIR then recallCount else RESERVOIR)
      && (recallCount <= RESERVOIR ==> reservoir == Durations(log))
      && (forall x :: x in reservoir ==> x in Durations(log))
    }

    constructor (now: int)
      ensures Valid() && startedAt == now && log == [] && steady && latest == MinuteOf(now)
    {
      startedAt := now;
      openMs, buckets, reservoir := 0.0, map[], [];
      recallCount, recallErrors, maxMs, ingestCalls, ingestTurns := 0, 0, None, 0, 0;
      log, steady, latest, horizon := [], true, MinuteOf(now), OldestOf(MinuteOf(now));
    }

    method RecordOpen(ms: real)
      requires Valid()
      modifies this`openMs
      ensures Valid() && openMs == ms
    {
      openMs := ms;
    }

    // Drop the buckets that have left the hour.
    method Prune(currentMinute: int)
      modifies this`buckets
      ensures buckets == Pruned(old(buckets), OldestOf(currentMinute))
    {
      buckets := PruneOld(buckets, OldestOf(currentMinute));
    }

    // The bucket of this minute.
    method OpenBucket(now: int) returns (minute: int)
      modifies this`buckets
      ensures minute == MinuteOf(now) && minute in buckets && buckets == Opened(old(buckets), minute)
    {
      minute := MinuteOf(now);
      if minute !in buckets {
        buckets := buckets[minute := EMPTY];
        Prune(minute);
      }
    }

    // Count one event in its minute's bucket.
    method Count(now: int, what: Happening)
      requires steady ==> Exact(log, buckets, horizon, latest)
      modifies this`buckets, this`log, this`steady, this`latest, this`horizon
      ensures log == old(log) + [Event(MinuteOf(now), what)]
      ensures steady == (old(steady) && MinuteOf(now) >= old(latest)) && (steady ==> latest == MinuteOf(now))
      ensures steady ==> Exact(log, buckets, horizon, latest)
    {
      MinuteShape(now);
      ghost var e := Event(MinuteOf(now), what);
      if steady && MinuteOf(now) >= latest {
        horizon := CountKeepsExact(log, buckets, horizon, latest, e);
      }
      var minute := OpenBucket(now);
      buckets := buckets[minute := Counted(buckets[minute], what)];
      steady := steady && minute >= latest;
      log, latest := log + [e], minute;
    }

    // A recall's duration. The full reservoir loses a value of the caller's choice.
    method RecordRecall(now: int, ms: real, victim: nat)
      requires Valid() && victim < RESERVOIR
      modifies this
      ensures Valid() && log == old(log) + [Event(MinuteOf(now), Recall(ms))]
      ensures steady == (old(steady) && MinuteOf(now) >= old(latest)) && (steady ==> latest == MinuteOf(now))
    {
      ghost var e := Event(MinuteOf(now), Recall(ms));
      LogGrows(log, e, 0);
      MaxGrows(Durations(log), maxMs, ms);
      recallCount := recallCount + 1;
      maxMs := Some(if maxMs.None? || ms > maxMs.value then ms else maxMs.value);
      Count(now, Recall(ms));
      if |reservoir| < RESERVOIR {
        reservoir := reservoir + [ms];
      } else {
        reservoir := reservoir[victim := ms];
      }
    }

    // A recall that threw.
    method RecordFailure(now: int)
      requires Valid()
      modifies this
      ensures Valid() && log == old(log) + [Event(MinuteOf(now), Failure)]
      ensures steady == (old(steady) && MinuteOf(now) >= old(latest)) && (steady ==> latest == MinuteOf(now))
    {
      LogGrows(log, Event(MinuteOf(now), Failure), 0);
      recallErrors := recallErrors + 1;
      Count(now, Failure);
    }

    method RecordIngest(now: int, turns: nat)
      requires Valid()
      modifies this
      ensures Valid() && log == old(log) + [Event(MinuteOf(now), Ingest(turns))]
      ensures steady == (old(steady) && MinuteOf(now) >= old(latest)) && (steady ==> latest == MinuteOf(now))
    {
      LogGrows(log, Event(MinuteOf(now), Ingest(turns)), 0);
      ingestCalls := ingestCalls + 1;
      ingestTurns := ingestTurns + turns;
      Count(now, Ingest(turns));
    }

    // Under a clock that only goes forward each of the sixty minutes shows what the full log
    // has for it; the headline counts are the log's under any clock.
    method Snapshot(now: int) returns (s: HealthSnapshot)
      requires Valid()
      modifies this`buckets, this`steady, this`latest, this`horizon
      ensures Valid() && steady == (old(steady) && MinuteOf(now) >= old(latest)) && (steady ==> latest == MinuteOf(now))
      ensures |s.series| == SERIES_MINUTES
      ensures forall i :: 0 <= i < SERIES_MINUTES ==>
        s.series[i].minute == MinuteOf(now) - (SERIES_MINUTES - 1 - i) * MINUTE_MS
      ensures steady ==> |buckets| <= SERIES_MINUTES
      ensures steady ==> forall i :: 0 <= i < SERIES_MINUTES ==>
        s.series[i] == Shown(s.series[i].minute, InMinute(log, s.series[i].minute))
      ensures s.recalls == |Durations(log)| && s.recallErrors == Failures(log) && IsMax(Durations(log), s.max)
      ensures s.ingestCalls == Calls(log) && s.ingestTurns == Turns(log)
      ensures s.recalls == 0 ==> s.p50.None? && s.p95.None?
      ensures s.recalls > 0 ==> s.p50.Some? && s.p95.Some? && s.max.Some? && s.p50.value <= s.p95.value <= s.max.value
    {
      var currentMinute := MinuteOf(now);
      MinuteShape(now);
      steady := steady && currentMinute >= latest;
      if steady {
        PruneKeepsExact(log, buckets, horizon, latest, currentMinute);
      }
      Prune(currentMinute);
      latest, horizon := currentMinute, OldestOf(currentMinute);
      var series: seq<Minute> := [];
      for i := SERIES_MINUTES downto 0
        invariant |series| == SERIES_MINUTES - i
        invariant forall j :: 0 <= j < |series| ==>
          series[j].minute == currentMinute - (SERIES_MINUTES - 1 - j) * MINUTE_MS
        invariant forall j :: 0 <= j < |series| ==> series[j] == Shown(series[j].minute, At(buckets, series[j].minute))
      {
        var minute := currentMinute - i * MINUTE_MS;
        series := series + [Shown(minute, At(buckets, minute))];
      }
      if steady {
        AtMostAnHour(log, buckets, horizon, latest);
      }
      var sorted := Sort(reservoir, ASCENDING);
      if reservoir != [] {
        PercentilesRise(reservoir, 50, 95, maxMs.value);
      }
      var uptime := (now - startedAt) / 1000;
      s := HealthSnapshot(startedAt, if uptime < 0 then 0 else uptime, openMs,
        recallCount, recallErrors, Percentile(sorted, 50), Percentile(sorted, 95), maxMs,
                          ingestCalls, ingestTurns, series);
    }
  }

  ghost predicate IsMax(values: seq<real>, max: Option<real>) {
    match max
    case None => values == []
    case Some(m) => m in values && forall x :: x in values ==> x <= m
  }

  lemma MaxGrows(values: seq<real>, max: Option<real>, ms: real)
    requires IsMax(values, max)
    ensures IsMax(values + [ms], Some(if max.None? || ms > max.value then ms else max.value))
  {
  }
}
