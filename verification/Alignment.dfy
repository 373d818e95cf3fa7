/** How candles and indicator points become the frames the strategy sees (`align` in app/services/scanner_base.py): the
    integrity checks in front of every decision, and what the reflection of prices does to them. Times are milliseconds. */
module Alignment {
  import opened Trading
  import opened Strategy
  import opened StrategySymmetry
  import opened Indicators

  /** One interval's candle snapshot. */
  datatype Candles = Candles(bars: seq<Bar>, stale: bool)

  /** An indicator point as far as alignment reads it. */
  datatype Point = Point(closeTime: int, indicator: Indicator, volumeSma: Option<real>)

  /** One interval's indicator snapshot, possibly calculated from another fetch of the candles. */
  datatype Points = Points(points: seq<Point>, stale: bool, warm: bool, structure: Structure)

  datatype Pair = Pair(bar: Bar, point: Point)

  const MinimumCandles: nat := 200
  const FutureTolerance := 2000

  function Length(interval: Interval): int {
    match interval
    case Hour => 3600000
    case Quarter => 900000
    case Five => 300000
  }

  function MaximumAge(interval: Interval): int {
    match interval
    case Hour => 4500000
    case Quarter => 1350000
    case Five => 450000
  }

  /** How many of the newest frames must be complete. */
  function RequiredDepth(interval: Interval): nat {
    match interval
    case Hour => 4
    case Quarter => 24
    case Five => 3
  }

  // ---------------------------------------------------------------- the checks

  predicate BarsIncrease(bars: seq<Bar>) {
    forall i, j :: 0 <= i < j < |bars| ==> bars[i].candle.closeTime < bars[j].candle.closeTime
  }

  predicate PointsIncrease(points: seq<Point>) {
    forall i, j :: 0 <= i < j < |points| ==> points[i].closeTime < points[j].closeTime
  }

  function PointAtTime(points: seq<Point>, time: int): Option<Point> {
    if points == [] then None
    else if points[|points| - 1].closeTime == time then Some(points[|points| - 1])
    else PointAtTime(points[..|points| - 1], time)
  }

  /** The candles that have a point of the same close time, oldest first. */
  function Common(bars: seq<Bar>, points: seq<Point>): seq<Pair> {
    if bars == [] then []
    else
      var last := bars[|bars| - 1];
      var point := PointAtTime(points, last.candle.closeTime);
      Common(bars[..|bars| - 1], points) + if point.Some? then [Pair(last, point.value)] else []
  }

  predicate Positive(c: Candle) { c.open > 0.0 && c.high > 0.0 && c.low > 0.0 && c.close > 0.0 }

  /** The other per-candle checks: they compare prices with each other, never with zero. */
  predicate WellFormed(b: Bar, now: int) {
    var c := b.candle;
    && c.high >= Max(c.open, c.close) && c.low <= Min(c.open, c.close) && c.high >= c.low
    && b.volume >= 0.0 && b.quoteVolume >= 0.0 && b.trades >= 0
    && b.openTime < c.closeTime <= now + FutureTolerance
  }

  predicate Regular(pairs: seq<Pair>, interval: Interval, now: int) {
    && (forall i :: 0 <= i < |pairs| ==> WellFormed(pairs[i].bar, now))
    && (forall i :: 0 < i < |pairs| ==> pairs[i].bar.candle.closeTime - pairs[i - 1].bar.candle.closeTime == Length(interval))
  }

  predicate AllPositive(pairs: seq<Pair>) { forall i :: 0 <= i < |pairs| ==> Positive(pairs[i].bar.candle) }

  predicate PointComplete(p: Point) {
    Complete(Frame(Candle(0.0, 0.0, 0.0, 0.0, 0), p.indicator)) && p.volumeSma.Some? && p.volumeSma.value > 0.0
  }

  predicate NewestComplete(pairs: seq<Pair>, depth: nat) {
    forall i :: 0 <= i < |pairs| && |pairs| - depth <= i ==> PointComplete(pairs[i].point)
  }

  function FrameOf(p: Pair): Frame { Frame(p.bar.candle, p.point.indicator) }

  /** Newest first. */
  function FramesOf(pairs: seq<Pair>): (r: seq<Frame>)
    ensures |r| == |pairs| && forall i :: 0 <= i < |r| ==> r[i] == FrameOf(pairs[|pairs| - 1 - i])
  {
    seq(|pairs|, i requires 0 <= i < |pairs| => FrameOf(pairs[|pairs| - 1 - i]))
  }

  function Age(pairs: seq<Pair>, now: int): int
    requires pairs != []
  {
    var age := now - pairs[|pairs| - 1].bar.candle.closeTime;
    if age < 0 then 0 else age
  }

  function Freshness(age: int, interval: Interval): real {
    Clamp(1.0 - age as real / MaximumAge(interval) as real, 0.0, 1.0)
  }

  /** What is checked before any price is looked at. */
  function Refused(interval: Interval, candles: Candles, points: Points): Option<Code> {
    if candles.bars == [] then Some(MissingCandles(interval))
    else if candles.stale || points.stale then Some(StaleData(interval))
    else if |candles.bars| < MinimumCandles then Some(InsufficientHistory(interval))
    else if !points.warm || |points.points| < MinimumCandles then Some(InsufficientHistory(interval))
    else if !BarsIncrease(candles.bars) then Some(InvalidOhlcv(interval))
    else if !PointsIncrease(points.points) then Some(IndicatorCalculationFailed)
    else if |Common(candles.bars, points.points)| < MinimumCandles then Some(MissingCandles(interval))
    else None
  }

  /** What is checked of the pairs after their prices. */
  function Lapsed(interval: Interval, pairs: seq<Pair>, now: int): Option<Code>
    requires pairs != []
  {
    if Age(pairs, now) > MaximumAge(interval) then Some(StaleData(interval))
    else if !NewestComplete(pairs, RequiredDepth(interval)) then Some(MissingRequiredIndicator)
    else None
  }

  /** The aligned frames with the freshness of the newest, or the first failed check. */
  function Align(interval: Interval, candles: Candles, points: Points, now: int): Result<(seq<Frame>, real), Code> {
    var refused := Refused(interval, candles, points);
    if refused.Some? then Err(refused.value)
    else
      var pairs := Common(candles.bars, points.points);
      if !Regular(pairs, interval, now) || !AllPositive(pairs) then Err(InvalidOhlcv(interval))
      else
        var lapsed := Lapsed(interval, pairs, now);
        if lapsed.Some? then Err(lapsed.value) else Ok((FramesOf(pairs), Freshness(Age(pairs, now), interval)))
  }

  /** The loop of `align` over the common candles. */
  method CheckCandles(ordered: seq<Pair>, interval: Interval, now: int) returns (valid: bool)
    ensures valid <==> Regular(ordered, interval, now) && AllPositive(ordered)
  {
    hide WellFormed, Positive, Length;
    for index := 0 to |ordered|
      invariant forall i :: 0 <= i < index ==> WellFormed(ordered[i].bar, now) && Positive(ordered[i].bar.candle)
      invariant forall i :: 0 < i < index ==> ordered[i].bar.candle.closeTime - ordered[i - 1].bar.candle.closeTime == Length(interval)
    {
      var bar := ordered[index].bar;
      if !WellFormed(bar, now) || !Positive(bar.candle) { return false; }
      if index > 0 && bar.candle.closeTime - ordered[index - 1].bar.candle.closeTime != Length(interval) { return false; }
    }
    return true;
  }

  /** Its loop over the newest frames. */
  method CheckNewest(ordered: seq<Pair>, depth: nat) returns (complete: bool)
    requires depth <= |ordered|
    ensures complete <==> NewestComplete(ordered, depth)
  {
    hide PointComplete;
    for back := 0 to depth
      invariant forall i :: |ordered| - back <= i < |ordered| ==> PointComplete(ordered[i].point)
    {
      if !PointComplete(ordered[|ordered| - 1 - back].point) { return false; }
    }
    return true;
  }

  /** `align`, check by check. */
  method AlignSeries(interval: Interval, candles: Candles, points: Points, now: int) returns (result: Result<(seq<Frame>, real), Code>)
    ensures result == Align(interval, candles, points, now)
  {
    hide Common, Regular, AllPositive, NewestComplete, BarsIncrease, PointsIncrease, Age, Freshness;
    if candles.bars == [] { return Err(MissingCandles(interval)); }
    if candles.stale || points.stale { return Err(StaleData(interval)); }
    if |candles.bars| < MinimumCandles { return Err(InsufficientHistory(interval)); }
    if !points.warm || |points.points| < MinimumCandles { return Err(InsufficientHistory(interval)); }
    if !BarsIncrease(candles.bars) { return Err(InvalidOhlcv(interval)); }
    if !PointsIncrease(points.points) { return Err(IndicatorCalculationFailed); }
    var ordered := Common(candles.bars, points.points);
    if |ordered| < MinimumCandles { return Err(MissingCandles(interval)); }
    var valid := CheckCandles(ordered, interval, now);
    if !valid { return Err(InvalidOhlcv(interval)); }
    var age := Age(ordered, now);
    if age > MaximumAge(interval) { return Err(StaleData(interval)); }
    var complete := CheckNewest(ordered, RequiredDepth(interval));
    if !complete { return Err(MissingRequiredIndicator); }
    return Ok((FramesOf(ordered), Freshness(age, interval)));
  }

  // ---------------------------------------------------------------- the reflection

  function MirrorCandles(c: Candles, k: real): Candles { c.(bars := MirrorBars(c.bars, k)) }

  function MirrorPoint(p: Point, k: real): Point { p.(indicator := MirrorIndicator(p.indicator, k)) }

  function MirrorPointList(points: seq<Point>, k: real): (r: seq<Point>)
    ensures |r| == |points| && forall i :: 0 <= i < |r| ==> r[i] == MirrorPoint(points[i], k)
  {
    seq(|points|, i requires 0 <= i < |points| => MirrorPoint(points[i], k))
  }

  function MirrorPoints(p: Points, k: real): Points {
    p.(points := MirrorPointList(p.points, k), structure := MirrorStructure(p.structure))
  }

  function MirrorPairs(pairs: seq<Pair>, k: real): (r: seq<Pair>)
    ensures |r| == |pairs| && forall i :: 0 <= i < |r| ==> r[i] == Pair(MirrorBar(pairs[i].bar, k), MirrorPoint(pairs[i].point, k))
  {
    seq(|pairs|, i requires 0 <= i < |pairs| => Pair(MirrorBar(pairs[i].bar, k), MirrorPoint(pairs[i].point, k)))
  }

  /** Every high lies below the axis K, so that every reflected low is above zero. */
  predicate AllBelow(pairs: seq<Pair>, k: real) { forall i :: 0 <= i < |pairs| ==> pairs[i].bar.candle.high < k }

  lemma {:induction false} PointAtTimeReflects(points: seq<Point>, time: int, k: real)
    ensures PointAtTime(MirrorPointList(points, k), time) ==
      var p := PointAtTime(points, time); if p.None? then None else Some(MirrorPoint(p.value, k))
  {
    hide MirrorIndicator;
    if points != [] {
      var init := points[..|points| - 1];
      PointAtTimeReflects(init, time, k);
      assert MirrorPointList(points, k)[..|init|] == MirrorPointList(init, k);
    }
  }

  lemma {:induction false} CommonReflects(bars: seq<Bar>, points: seq<Point>, k: real)
    ensures Common(MirrorBars(bars, k), MirrorPointList(points, k)) == MirrorPairs(Common(bars, points), k)
  {
    hide PointAtTime, MirrorPoint;
    if bars != [] {
      var init, last := bars[..|bars| - 1], bars[|bars| - 1];
      CommonReflects(init, points, k);
      PointAtTimeReflects(points, last.candle.closeTime, k);
      assert MirrorBars(bars, k)[..|init|] == MirrorBars(init, k);
      var found := PointAtTime(points, last.candle.closeTime);
      if found.Some? { PairsAppend(Common(init, points), Pair(last, found.value), k); }
    }
  }

  lemma PairsAppend(pairs: seq<Pair>, p: Pair, k: real)
    ensures MirrorPairs(pairs + [p], k) == MirrorPairs(pairs, k) + [Pair(MirrorBar(p.bar, k), MirrorPoint(p.point, k))]
  {
    hide MirrorBar, MirrorPoint;
  }

  lemma RefusalReflects(interval: Interval, candles: Candles, points: Points, k: real)
    ensures Refused(interval, MirrorCandles(candles, k), MirrorPoints(points, k)) == Refused(interval, candles, points)
  {
    hide Common, MirrorIndicator, MirrorStructure;
    CommonReflects(candles.bars, points.points, k);
    var bars, mirrored := candles.bars, MirrorBars(candles.bars, k);
    assert BarsIncrease(mirrored) == BarsIncrease(bars) by { TimesKept(bars, k); }
    assert PointsIncrease(MirrorPointList(points.points, k)) == PointsIncrease(points.points) by { PointTimesKept(points.points, k); }
    hide BarsIncrease, PointsIncrease;
  }

  lemma TimesKept(bars: seq<Bar>, k: real)
    ensures BarsIncrease(MirrorBars(bars, k)) == BarsIncrease(bars)
  {
    var mirrored := MirrorBars(bars, k);
    assert forall i :: 0 <= i < |bars| ==> mirrored[i].candle.closeTime == bars[i].candle.closeTime;
  }

  lemma PointTimesKept(points: seq<Point>, k: real)
    ensures PointsIncrease(MirrorPointList(points, k)) == PointsIncrease(points)
  {
    hide MirrorIndicator;
    var mirrored := MirrorPointList(points, k);
    assert forall i :: 0 <= i < |points| ==> mirrored[i].closeTime == points[i].closeTime;
  }

  lemma WellFormedReflects(b: Bar, now: int, k: real)
    ensures WellFormed(MirrorBar(b, k), now) == WellFormed(b, now)
  {
  }

  /** Of a well-formed candle the reflection is positive exactly when its high is below the axis. */
  lemma PositiveReflects(b: Bar, now: int, k: real)
    requires WellFormed(b, now)
    ensures Positive(MirrorBar(b, k).candle) <==> b.candle.high < k
  {
  }

  lemma RegularReflects(pairs: seq<Pair>, interval: Interval, now: int, k: real)
    ensures Regular(MirrorPairs(pairs, k), interval, now) == Regular(pairs, interval, now)
    ensures Regular(pairs, interval, now) ==> (AllPositive(MirrorPairs(pairs, k)) <==> AllBelow(pairs, k))
  {
    hide WellFormed, MirrorPoint, Positive, Length;
    var mirrored := MirrorPairs(pairs, k);
    forall i | 0 <= i < |pairs|
      ensures WellFormed(mirrored[i].bar, now) == WellFormed(pairs[i].bar, now)
      ensures mirrored[i].bar.candle.closeTime == pairs[i].bar.candle.closeTime
    {
      WellFormedReflects(pairs[i].bar, now, k);
    }
    if Regular(pairs, interval, now) {
      forall i | 0 <= i < |pairs| ensures Positive(mirrored[i].bar.candle) <==> pairs[i].bar.candle.high < k {
        PositiveReflects(pairs[i].bar, now, k);
      }
    }
  }

  lemma LapseReflects(interval: Interval, pairs: seq<Pair>, now: int, k: real)
    requires pairs != []
    ensures Lapsed(interval, MirrorPairs(pairs, k), now) == Lapsed(interval, pairs, now)
    ensures Age(MirrorPairs(pairs, k), now) == Age(pairs, now)
  {
    var mirrored, depth := MirrorPairs(pairs, k), RequiredDepth(interval);
    hide RequiredDepth;
    forall i | 0 <= i < |pairs| ensures PointComplete(mirrored[i].point) == PointComplete(pairs[i].point) {
    }
    hide PointComplete;
    assert NewestComplete(mirrored, depth) == NewestComplete(pairs, depth);
  }

  lemma FramesOfReflect(pairs: seq<Pair>, k: real)
    ensures FramesOf(MirrorPairs(pairs, k)) == MirrorFrames(FramesOf(pairs), k)
  {
    hide MirrorIndicator, MirrorCandle;
    forall i | 0 <= i < |pairs| ensures FramesOf(MirrorPairs(pairs, k))[i] == MirrorFrame(FramesOf(pairs)[i], k) {
    }
  }

  function MirrorAligned(r: Result<(seq<Frame>, real), Code>, k: real): Result<(seq<Frame>, real), Code> {
    if r.Err? then r else Ok((MirrorFrames(r.value.0, k), r.value.1))
  }

  /** Alignment reflects except for one check, that prices are positive: aligned candles whose highs all lie below the axis
      align to the reflected frames, and any others are refused as invalid. */
  lemma AlignReflectsExactlyBelowTheAxis(interval: Interval, candles: Candles, points: Points, now: int, k: real)
    requires Align(interval, candles, points, now).Ok?
    ensures Align(interval, MirrorCandles(candles, k), MirrorPoints(points, k), now)
            == if AllBelow(Common(candles.bars, points.points), k) then MirrorAligned(Align(interval, candles, points, now), k)
               else Err(InvalidOhlcv(interval))
  {
    hide Refused, Common, Regular, AllPositive, AllBelow, Lapsed, Age, Freshness, MirrorFrames, MirrorStructure, FramesOf;
    var pairs := Common(candles.bars, points.points);
    assert pairs != [] by { RefusesEmpty(interval, candles, points); }
    RefusalReflects(interval, candles, points, k);
    CommonReflects(candles.bars, points.points, k);
    RegularReflects(pairs, interval, now, k);
    LapseReflects(interval, pairs, now, k);
    FramesOfReflect(pairs, k);
  }

  lemma RefusesEmpty(interval: Interval, candles: Candles, points: Points)
    requires Refused(interval, candles, points).None?
    ensures |Common(candles.bars, points.points)| >= MinimumCandles && BarsIncrease(candles.bars) && PointsIncrease(points.points)
  {
    hide Common;
  }

  // ---------------------------------------------------------------- exactly when a series aligns

  /** Spacing of the candles, greatest age of the newest, and number of newest points that must be complete. */
  function Terms(interval: Interval): (int, int, nat) {
    match interval
    case Hour => (60 * 60 * 1000, 75 * 60 * 1000, 4)
    case Quarter => (15 * 60 * 1000, 1350 * 1000, 24)
    case Five => (5 * 60 * 1000, 450 * 1000, 3)
  }

  predicate SoundBar(b: Bar, now: int) {
    var c := b.candle;
    && c.open > 0.0 && c.high > 0.0 && c.low > 0.0 && c.close > 0.0
    && c.low <= c.open <= c.high && c.low <= c.close <= c.high
    && b.volume >= 0.0 && b.quoteVolume >= 0.0 && b.trades >= 0
    && b.openTime < c.closeTime && c.closeTime <= now + 2000
  }

  predicate FullPoint(p: Point) {
    var i := p.indicator;
    && i.ema20.Some? && i.ema50.Some? && i.ema200.Some? && i.rsi.Some? && i.macd.Some? && i.signal.Some? && i.histogram.Some?
    && i.volumeRatio.Some? && i.atr.Some? && i.atr.value > 0.0 && p.volumeSma.Some? && p.volumeSma.value > 0.0
  }

  ghost predicate Alignable(interval: Interval, candles: Candles, points: Points, now: int) {
    var pairs, (spacing, age, depth) := Common(candles.bars, points.points), Terms(interval);
    && !candles.stale && !points.stale && points.warm
    && |candles.bars| >= 200 && |points.points| >= 200 && |pairs| >= 200
    && (forall i, j :: 0 <= i < j < |candles.bars| ==> candles.bars[i].candle.closeTime < candles.bars[j].candle.closeTime)
    && (forall i, j :: 0 <= i < j < |points.points| ==> points.points[i].closeTime < points.points[j].closeTime)
    && (forall i :: 0 <= i < |pairs| ==> SoundBar(pairs[i].bar, now))
    && (forall i :: 0 < i < |pairs| ==> pairs[i].bar.candle.closeTime - pairs[i - 1].bar.candle.closeTime == spacing)
    && now - pairs[|pairs| - 1].bar.candle.closeTime <= age
    && (forall i :: |pairs| - depth <= i < |pairs| ==> FullPoint(pairs[i].point))
  }

  lemma BarExactly(b: Bar, now: int)
    ensures WellFormed(b, now) && Positive(b.candle) <==> SoundBar(b, now)
  {
  }

  lemma PointExactly(p: Point)
    ensures PointComplete(p) <==> FullPoint(p)
  {
  }

  lemma TermsAre(interval: Interval)
    ensures Terms(interval) == (Length(interval), MaximumAge(interval), RequiredDepth(interval)) && 0 < MaximumAge(interval)
    ensures RequiredDepth(interval) <= 24
  {
  }

  /** A series aligns exactly when all this holds; the frames are then its candles that have a point, newest first, and the
      freshness falls evenly from one to zero over the greatest age. */
  lemma AlignedExactlyWhen(interval: Interval, candles: Candles, points: Points, now: int)
    ensures var r := Align(interval, candles, points, now);
      && (r.Ok? <==> Alignable(interval, candles, points, now))
      && (r.Ok? ==>
            var pairs := Common(candles.bars, points.points); var age := now - pairs[|pairs| - 1].bar.candle.closeTime;
            && |r.value.0| == |pairs|
            && (forall i :: 0 <= i < |pairs| ==> r.value.0[i] == Frame(pairs[|pairs| - 1 - i].bar.candle, pairs[|pairs| - 1 - i].point.indicator))
            && r.value.1 == if age <= 0 then 1.0 else 1.0 - age as real / Terms(interval).1 as real)
  {
    hide Common, WellFormed, Positive, PointComplete, SoundBar, FullPoint, Terms, Length, MaximumAge, RequiredDepth, Freshness;
    TermsAre(interval);
    forall b: Bar ensures WellFormed(b, now) && Positive(b.candle) <==> SoundBar(b, now) { BarExactly(b, now); }
    forall p: Point ensures PointComplete(p) <==> FullPoint(p) { PointExactly(p); }
    if Align(interval, candles, points, now).Ok? {
      FreshnessIs(Age(Common(candles.bars, points.points), now), interval);
    }
  }

  lemma FreshnessIs(age: int, interval: Interval)
    requires 0 <= age <= MaximumAge(interval)
    ensures Freshness(age, interval) == if age == 0 then 1.0 else 1.0 - age as real / Terms(interval).1 as real
  {
    TermsAre(interval);
    hide Terms, MaximumAge;
    assert 0.0 <= age as real / MaximumAge(interval) as real <= 1.0;
  }

  /** The pairs are the candles that have a point of their close time, in their order, each with that point. */
  lemma {:induction false} CommonExactly(bars: seq<Bar>, points: seq<Point>)
    requires BarsIncrease(bars) && PointsIncrease(points)
    ensures var pairs := Common(bars, points);
      && (forall i :: 0 <= i < |pairs| ==> pairs[i].bar in bars && pairs[i].point in points && pairs[i].bar.candle.closeTime == pairs[i].point.closeTime)
      && (forall i, j :: 0 <= i < j < |pairs| ==> pairs[i].bar.candle.closeTime < pairs[j].bar.candle.closeTime)
      && (forall b, p :: b in bars && p in points && b.candle.closeTime == p.closeTime ==> Pair(b, p) in pairs)
  {
    if bars != [] {
      var init, last := bars[..|bars| - 1], bars[|bars| - 1];
      CommonExactly(init, points);
      PointIsThere(points, last.candle.closeTime);
      var before, pairs := Common(init, points), Common(bars, points);
      forall i | 0 <= i < |before| ensures before[i].bar.candle.closeTime < last.candle.closeTime {
        assert before[i].bar in init;
      }
      forall b, p | b in bars && p in points && b.candle.closeTime == p.closeTime ensures Pair(b, p) in pairs {
        if b in init {
          assert Pair(b, p) in before;
        } else {
          assert b == last;
          assert pairs[|pairs| - 1] == Pair(last, p);
        }
      }
    }
  }

  lemma {:induction false} PointIsThere(points: seq<Point>, time: int)
    requires PointsIncrease(points)
    ensures var p := PointAtTime(points, time); p.Some? ==> p.value in points && p.value.closeTime == time
    ensures forall p :: p in points && p.closeTime == time ==> PointAtTime(points, time) == Some(p)
  {
    if points != [] && points[|points| - 1].closeTime != time { PointIsThere(points[..|points| - 1], time); }
  }
}
