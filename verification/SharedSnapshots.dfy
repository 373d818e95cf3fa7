/** The versioned candle and indicator caches of app/services/shared_snapshots.py, for one symbol and interval. Closed
    candles are immutable, so there is one true history; a content hash is taken to be injective, so the candles stand
    for their version. Each method is one section between two awaits; sections of different callers may interleave. */
module SharedSnapshots {
  import opened Trading
  import opened Strategy
  import opened Indicators
  import opened IndicatorSeries

  datatype Series = Series(candles: seq<Bar>, lastClosed: Option<int>, fetchedAt: int, stale: bool, cacheHit: bool)

  /** The version of a series: its last close and its candles. */
  datatype Version = Version(lastClosed: Option<int>, candles: seq<Bar>)

  function VersionOf(s: Series): Version { Version(s.lastClosed, s.candles) }

  function LastClose(candles: seq<Bar>): Option<int> {
    if candles == [] then None else Some(candles[|candles| - 1].candle.closeTime)
  }

  /** The last `limit` candles, as a negative slice takes them. */
  function Last(candles: seq<Bar>, limit: nat): seq<Bar> {
    if |candles| <= limit then candles else candles[|candles| - limit..]
  }

  // ---------------------------------------------------------------- the true history

  /** Candle i of the history closes one interval after candle i - 1, just before a multiple of the interval. */
  ghost predicate Regular(history: seq<Bar>, interval: nat) {
    && interval > 0
    && (forall i :: 0 <= i < |history| ==> (history[i].candle.closeTime + 1) % interval == 0)
    && (forall i, j :: 0 <= i < j < |history| ==> history[i].candle.closeTime < history[j].candle.closeTime)
  }

  function ExpectedLastClosed(interval: nat, time: nat): int
    requires interval > 0
  {
    time - time % interval - 1
  }

  /** A full-length fetch when the first `n` candles of the history have closed. */
  function Direct(history: seq<Bar>, n: nat, limit: nat): seq<Bar>
    requires n <= |history|
  {
    Last(history[..n], limit)
  }

  /** How many candles of the history have closed by `expected`. */
  function ClosedBy(history: seq<Bar>, expected: int): (n: nat)
    ensures n <= |history|
  {
    if history == [] then 0
    else if history[|history| - 1].candle.closeTime <= expected then |history|
    else ClosedBy(history[..|history| - 1], expected)
  }

  lemma {:induction false} ClosedByIsTheBoundary(history: seq<Bar>, interval: nat, expected: int, n: nat)
    requires Regular(history, interval) && 0 < n <= |history| && history[n - 1].candle.closeTime == expected
    ensures ClosedBy(history, expected) == n
  {
    if n < |history| {
      ClosedByIsTheBoundary(history[..|history| - 1], interval, expected, n);
    }
  }

  lemma {:induction false} ClosedBySplits(history: seq<Bar>, interval: nat, expected: int)
    requires Regular(history, interval)
    ensures var n := ClosedBy(history, expected);
      && (forall i :: 0 <= i < n ==> history[i].candle.closeTime <= expected)
      && (forall i :: n <= i < |history| ==> history[i].candle.closeTime > expected)
  {
    if history != [] && history[|history| - 1].candle.closeTime > expected {
      ClosedBySplits(history[..|history| - 1], interval, expected);
    }
  }

  // ---------------------------------------------------------------- reuse

  predicate Reusable(s: Series, limit: nat, expected: int) {
    |s.candles| >= limit && s.lastClosed.Some? && s.lastClosed.value == expected
  }

  function Slice(s: Series, limit: nat, hit: bool): Series {
    var candles := Last(s.candles, limit);
    s.(candles := candles, lastClosed := LastClose(candles), cacheHit := hit)
  }

  /** A snapshot is a contiguous stretch of the history that ends at some boundary. */
  ghost predicate Faithful(s: Series, history: seq<Bar>) {
    && s.lastClosed == LastClose(s.candles)
    && exists from, to :: IsStretch(s.candles, history, from, to)
  }

  ghost predicate IsStretch(candles: seq<Bar>, history: seq<Bar>, from: int, to: int) {
    0 <= from <= to <= |history| && candles == history[from..to]
  }

  /** A reusable snapshot, sliced, is exactly the direct fetch at the expected boundary. */
  lemma ReuseIsTransparent(s: Series, history: seq<Bar>, interval: nat, limit: nat, expected: int)
    requires Regular(history, interval) && Faithful(s, history) && 0 < limit && Reusable(s, limit, expected)
    ensures Slice(s, limit, true).candles == Direct(history, ClosedBy(history, expected), limit)
    ensures |Slice(s, limit, true).candles| == limit
  {
    var from, to :| IsStretch(s.candles, history, from, to);
    assert s.candles[|s.candles| - 1] == history[to - 1];
    ClosedByIsTheBoundary(history, interval, expected, to);
    assert Last(history[from..to], limit) == Last(history[..to], limit);
  }

  // ---------------------------------------------------------------- fetching

  /** What the exchange answers to a request for `limit + 1` rows once `m` candles have closed: the last of them and
      the one still open. */
  function Rows(history: seq<Bar>, m: nat, limit: nat, open: Bar): seq<Bar>
    requires m <= |history|
  {
    Last(history[..m], limit) + [open]
  }

  function Kept(rows: seq<Bar>, expected: int): seq<Bar> {
    if rows == [] then []
    else
      var rest, last := Kept(rows[..|rows| - 1], expected), rows[|rows| - 1];
      if last.candle.closeTime > expected then rest else rest + [last]
  }

  lemma {:induction false} KeptOfSorted(rows: seq<Bar>, expected: int, n: nat)
    requires n <= |rows|
    requires forall i :: 0 <= i < |rows| ==> (rows[i].candle.closeTime <= expected <==> i < n)
    ensures Kept(rows, expected) == rows[..n]
  {
    if rows != [] {
      KeptOfSorted(rows[..|rows| - 1], expected, if n == |rows| then n - 1 else n);
    }
  }

  /** The candles a miss stores. */
  function Fetched(rows: seq<Bar>, limit: nat, expected: int): seq<Bar> { Last(Kept(rows, expected), limit) }

  /** A fetch that sees `m` closed candles, for a boundary of `n` of them, keeps the stretch from the `m`-window's start
      up to the boundary. */
  lemma FetchedStretch(history: seq<Bar>, interval: nat, m: nat, limit: nat, open: Bar, expected: int)
    requires Regular(history, interval) && m <= |history| && 0 < limit && open.candle.closeTime > expected
    requires ClosedBy(history, expected) <= m
    ensures var n := ClosedBy(history, expected); var start := if m > limit then m - limit else 0;
      Fetched(Rows(history, m, limit, open), limit, expected) == if start <= n then history[start..n] else []
  {
    hide ClosedBy, Kept, Regular;
    var n, start := ClosedBy(history, expected), if m > limit then m - limit else 0;
    var rows, kept := Rows(history, m, limit, open), if start <= n then n - start else 0;
    assert rows == history[start..m] + [open];
    RowsSplitAtTheBoundary(history, interval, m, start, open, expected);
    KeptOfSorted(rows, expected, kept);
    assert rows[..kept] == if start <= n then history[start..n] else [];
  }

  lemma RowsSplitAtTheBoundary(history: seq<Bar>, interval: nat, m: nat, start: nat, open: Bar, expected: int)
    requires Regular(history, interval) && start <= m <= |history| && open.candle.closeTime > expected && ClosedBy(history, expected) <= m
    ensures var n := ClosedBy(history, expected); var rows := history[start..m] + [open];
      forall i :: 0 <= i < |rows| ==> (rows[i].candle.closeTime <= expected <==> i < if start <= n then n - start else 0)
  {
    hide ClosedBy;
    ClosedBySplits(history, interval, expected);
    hide Regular;
    var rows := history[start..m] + [open];
    forall i | 0 <= i < m - start ensures rows[i] == history[start + i] {
    }
  }

  /** A miss equals the direct fetch if and only if no boundary passed between the time lookup and the rows, unless the
      history is too short to notice. Otherwise it comes back shorter than asked. */
  lemma MissIsDirectUnlessTheBoundaryMoved(history: seq<Bar>, interval: nat, m: nat, limit: nat, open: Bar, expected: int)
    requires Regular(history, interval) && m <= |history| && 0 < limit && open.candle.closeTime > expected
    requires ClosedBy(history, expected) <= m
    ensures var n := ClosedBy(history, expected); var got := Fetched(Rows(history, m, limit, open), limit, expected);
      && (got == Direct(history, n, limit) <==> m == n || m <= limit || n == 0)
      && (m > n && m > limit && n > 0 ==> |got| < limit)
  {
    FetchedStretch(history, interval, m, limit, open, expected);
  }

  /** The filter of the fetch: rows that have closed by the boundary. */
  method ClosedRows(rows: seq<Bar>, expected: int) returns (candles: seq<Bar>)
    ensures candles == Kept(rows, expected)
  {
    candles := [];
    for i := 0 to |rows|
      invariant candles == Kept(rows[..i], expected)
    {
      assert rows[..i + 1][..i] == rows[..i];
      if rows[i].candle.closeTime <= expected { candles := candles + [rows[i]]; }
    }
    assert rows[..|rows|] == rows;
  }

  /** The expected boundary is the last instant before the latest multiple of the interval that is not after `time`. */
  lemma BoundaryExactly(interval: nat, time: nat)
    requires interval > 0
    ensures var last := ExpectedLastClosed(interval, time); last + 1 == time / interval * interval && last < time <= last + interval
  {
    assert time == time / interval * interval + time % interval;
  }

  /** A snapshot of the candles closed by the expected boundary serves every lookup up to that boundary's next one that asks for
      no more than it holds: a stored fetch is reused. */
  lemma FreshSnapshotIsReusable(history: seq<Bar>, n: nat, limit: nat, asked: nat, expected: int, now: int)
    requires 0 < n <= |history| && history[n - 1].candle.closeTime == expected && 0 < limit
    ensures var candles := Direct(history, n, limit);
      Reusable(Series(candles, LastClose(candles), now, false, false), asked, expected) <==> asked <= |candles|
  {
  }

  class SharedCandles {
    const interval: nat
    ghost const history: seq<Bar>
    var cached: Option<Series>
    var hits: nat
    var misses: nat
    var fetches: nat

    ghost predicate Valid()
      reads this
    {
      Regular(history, interval) && (cached.Some? ==> Faithful(cached.value, history))
    }

    constructor (intervalMs: nat, ghost truth: seq<Bar>)
      requires Regular(truth, intervalMs)
      ensures Valid() && interval == intervalMs && history == truth && cached == None
    {
      interval, history, cached, hits, misses, fetches := intervalMs, truth, None, 0, 0, 0;
    }

    /** The check made before and again after taking the resource lock. */
    method Lookup(limit: nat, time: nat) returns (result: Option<Series>)
      requires Valid() && 1 <= limit <= 1000
      modifies this`hits, this`misses
      ensures Valid() && hits + misses == old(hits) + old(misses) + 1
      ensures result.Some? <==> cached.Some? && Reusable(cached.value, limit, ExpectedLastClosed(interval, time))
      ensures result.Some? ==>
        result.value.candles == Direct(history, ClosedBy(history, ExpectedLastClosed(interval, time)), limit) && |result.value.candles| == limit
      ensures result.Some? ==> hits == old(hits) + 1 && result.value.lastClosed == Some(ExpectedLastClosed(interval, time)) && result.value.cacheHit
    {
      var expected := ExpectedLastClosed(interval, time);
      if cached.Some? && Reusable(cached.value, limit, expected) {
        hits := hits + 1;
        ReuseIsTransparent(cached.value, history, interval, limit, expected);
        assert cached.value.candles[|cached.value.candles| - 1] == Last(cached.value.candles, limit)[limit - 1];
        return Some(Slice(cached.value, limit, true));
      }
      misses := misses + 1;
      return None;
    }

    /** The fetch under the lock: filter out rows past the expected boundary, keep the last `limit`, store. */
    method Fetch(rows: seq<Bar>, limit: nat, time: nat, now: int, ghost m: nat, ghost open: Bar) returns (result: Series)
      requires Valid() && 1 <= limit <= 1000
      requires m <= |history| && open.candle.closeTime > ExpectedLastClosed(interval, time)
      requires ClosedBy(history, ExpectedLastClosed(interval, time)) <= m && rows == Rows(history, m, limit, open)
      modifies this`cached, this`fetches
      ensures Valid() && cached == Some(result) && fetches == old(fetches) + 1
      ensures result.candles == Fetched(rows, limit, ExpectedLastClosed(interval, time)) && !result.cacheHit && !result.stale
      ensures result.lastClosed == (if result.candles == [] then None else Some(result.candles[|result.candles| - 1].candle.closeTime))
      ensures m == ClosedBy(history, ExpectedLastClosed(interval, time)) ==> result.candles == Direct(history, m, limit)
    {
      var expected := ExpectedLastClosed(interval, time);
      hide Regular, ClosedBy, Kept, Rows, IsStretch, Direct;
      fetches := fetches + 1;
      var candles := ClosedRows(rows, expected);
      candles := Last(candles, limit);
      result := Series(candles, LastClose(candles), now, false, false);
      cached := Some(result);
      assert candles == Fetched(rows, limit, expected);
      hide Last, LastClose, Fetched;
      FetchedIsFaithful(history, interval, m, limit, open, expected);
      MissIsDirectUnlessTheBoundaryMoved(history, interval, m, limit, open, expected);
    }

    /** The fallback when the exchange is unreachable: recent enough and long enough, marked stale. */
    method StaleSnapshot(limit: nat, age: int, ttl: int) returns (result: Option<Series>)
      requires Valid() && 1 <= limit <= 1000
      ensures result.Some? <==> cached.Some? && |cached.value.candles| >= limit && age <= ttl
      ensures result.Some? ==> result.value.stale && |result.value.candles| == limit && Faithful(result.value, history)
    {
      if cached.None? || |cached.value.candles| < limit || age > ttl { return None; }
      SliceIsFaithful(cached.value, history, limit);
      return Some(Slice(cached.value.(stale := true), limit, true));
    }
  }

  lemma FetchedIsFaithful(history: seq<Bar>, interval: nat, m: nat, limit: nat, open: Bar, expected: int)
    requires Regular(history, interval) && m <= |history| && 0 < limit && open.candle.closeTime > expected
    requires ClosedBy(history, expected) <= m
    ensures exists from, to :: IsStretch(Fetched(Rows(history, m, limit, open), limit, expected), history, from, to)
  {
    hide Fetched;
    FetchedStretch(history, interval, m, limit, open, expected);
    var n, start := ClosedBy(history, expected), if m > limit then m - limit else 0;
    var candles := Fetched(Rows(history, m, limit, open), limit, expected);
    if start <= n { assert IsStretch(candles, history, start, n); } else { assert IsStretch(candles, history, 0, 0); }
  }

  lemma SliceIsFaithful(s: Series, history: seq<Bar>, limit: nat)
    requires Faithful(s, history) && |s.candles| >= limit
    ensures Faithful(Slice(s.(stale := true), limit, true), history)
  {
    var from, to :| IsStretch(s.candles, history, from, to);
    assert IsStretch(Last(s.candles, limit), history, to - limit, to);
  }

  // ---------------------------------------------------------------- indicators

  class SharedIndicators {
    var cache: map<Version, Calculated>
    var hits: nat
    var misses: nat

    ghost predicate Valid()
      reads this
    {
      forall v :: v in cache ==> IsCalculated(cache[v], v.candles)
    }

    /** A hit and a fresh calculation give the same points, VWAPs, structure and levels: those of the series' own candles. */
    method Build(series: Series) returns (result: Calculated)
      requires Valid()
      modifies this
      ensures Valid() && IsCalculated(result, series.candles)
      ensures cache.Keys == old(cache).Keys + {VersionOf(series)}
      ensures hits + misses == old(hits) + old(misses) + 1 && (hits > old(hits) <==> VersionOf(series) in old(cache))
    {
      hide IsCalculated;
      var key := VersionOf(series);
      if key in cache {
        hits := hits + 1;
        return cache[key];
      }
      misses := misses + 1;
      result := Calculate(series.candles);
      cache := cache[key := result];
    }
  }
}
