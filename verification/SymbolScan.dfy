/** One symbol's scan from its candle and indicator snapshots to the selected candidate (`_load_context` and
    `_evaluate_symbol` in app/services/scanner_full.py), and exactly when the reflection of prices turns it into the scan of
    the opposite direction. */
module SymbolScan {
  import opened Trading
  import opened Strategy
  import opened StrategySymmetry
  import opened Indicators
  import opened Alignment
  import opened IndicatorSeries

  /** The candle and indicator snapshots of one interval. */
  datatype Series = Series(candles: Candles, points: Points)

  /** Everything a scan reads of one symbol. */
  datatype Feed = Feed(hour: Series, quarter: Series, five: Series, quoteLog: real, spreadBps: real)

  function AlignedSeries(interval: Interval, s: Series, now: int): Result<(seq<Frame>, real), Code> { Align(interval, s.candles, s.points, now) }

  function Count(s: Series): nat { if |s.candles.bars| < |s.points.points| then |s.candles.bars| else |s.points.points| }

  /** The three intervals aligned, the hourly one first. */
  function Load(feed: Feed, now: int): Result<Context, Code> {
    var h :- AlignedSeries(Hour, feed.hour, now);
    var s :- AlignedSeries(Quarter, feed.quarter, now);
    var e :- AlignedSeries(Five, feed.five, now);
    Ok(Context(Long, h.0, s.0, e.0, feed.quoteLog, feed.spreadBps, (Count(feed.hour), Count(feed.quarter), Count(feed.five)), (h.1, s.1, e.1)))
  }

  lemma AlignedFrames(interval: Interval, s: Series, now: int)
    requires AlignedSeries(interval, s, now).Ok?
    ensures var frames := AlignedSeries(interval, s, now).value.0;
      |frames| >= MinimumCandles && forall i :: 0 <= i < RequiredDepth(interval) ==> Complete(frames[i])
  {
    hide Common, Regular, AllPositive, Freshness, RequiredDepth, Age, MaximumAge;
    RefusesEmpty(interval, s.candles, s.points);
    var pairs := Common(s.candles.bars, s.points.points);
    var frames := AlignedSeries(interval, s, now).value.0;
    assert RequiredDepth(interval) <= MinimumCandles by { DepthIsSmall(interval); }
    forall i | 0 <= i < RequiredDepth(interval) ensures Complete(frames[i]) {
      assert PointComplete(pairs[|pairs| - 1 - i].point);
    }
  }

  lemma DepthIsSmall(interval: Interval)
    ensures 3 <= RequiredDepth(interval) <= MinimumCandles
  {
  }

  /** Loading is what lets the evaluators divide. */
  lemma LoadedIsAligned(feed: Feed, now: int)
    requires Load(feed, now).Ok?
    ensures Load(feed, now).value.Valid() && Aligned(Load(feed, now).value)
  {
    hide Align;
    AlignedFrames(Hour, feed.hour, now);
    AlignedFrames(Quarter, feed.quarter, now);
    AlignedFrames(Five, feed.five, now);
  }

  function Scan(feed: Feed, now: int): Result<(Direction, Option<Verdict>), Code> {
    var market :- Load(feed, now);
    LoadedIsAligned(feed, now);
    ScanSymbol(market, feed.hour.points.structure, now)
  }

  // ---------------------------------------------------------------- the reflected feed

  function MirrorSeries(s: Series, k: real): Series { Series(MirrorCandles(s.candles, k), MirrorPoints(s.points, k)) }

  function MirrorFeed(feed: Feed, k: real): Feed {
    feed.(hour := MirrorSeries(feed.hour, k), quarter := MirrorSeries(feed.quarter, k), five := MirrorSeries(feed.five, k))
  }

  predicate SeriesBelow(s: Series, k: real) { AllBelow(Common(s.candles.bars, s.points.points), k) }

  /** Every high of the three intervals lies below the axis. */
  predicate FeedBelow(feed: Feed, k: real) { SeriesBelow(feed.hour, k) && SeriesBelow(feed.quarter, k) && SeriesBelow(feed.five, k) }

  /** The interval whose reflection is refused, the first in loading order. */
  function FirstAbove(feed: Feed, k: real): Interval {
    if !SeriesBelow(feed.hour, k) then Hour else if !SeriesBelow(feed.quarter, k) then Quarter else Five
  }

  lemma LoadReflectsExactlyBelowTheAxis(feed: Feed, now: int, k: real)
    requires Load(feed, now).Ok?
    ensures Load(MirrorFeed(feed, k), now)
            == if FeedBelow(feed, k) then Ok(MirrorContext(Load(feed, now).value, k).(direction := Long)) else Err(InvalidOhlcv(FirstAbove(feed, k)))
  {
    hide Align, MirrorCandles, MirrorPoints, SeriesBelow, MirrorFrames;
    SeriesReflects(Hour, feed.hour, now, k);
    SeriesReflects(Quarter, feed.quarter, now, k);
    SeriesReflects(Five, feed.five, now, k);
  }

  lemma SeriesReflects(interval: Interval, s: Series, now: int, k: real)
    requires AlignedSeries(interval, s, now).Ok?
    ensures AlignedSeries(interval, MirrorSeries(s, k), now)
            == if SeriesBelow(s, k) then MirrorAligned(AlignedSeries(interval, s, now), k) else Err(InvalidOhlcv(interval))
    ensures Count(MirrorSeries(s, k)) == Count(s)
  {
    hide Align, AllBelow, Common, MirrorAligned;
    AlignReflectsExactlyBelowTheAxis(interval, s.candles, s.points, now, k);
  }

  lemma StructureTurns(feed: Feed, k: real)
    ensures MirrorFeed(feed, k).hour.points.structure == MirrorStructure(feed.hour.points.structure)
  {
  }

  // ---------------------------------------------------------------- exactly when a scan reflects

  /** A scan of loaded candles names no interval's candles invalid but the 15-minute ones. */
  lemma ScanBlamesOnlyTheQuarter(market: Context, structure: Structure, now: int)
    requires Aligned(market) && market.Valid()
    ensures var r := ScanSymbol(market, structure, now); r.Err? && r.error.InvalidOhlcv? ==> r.error == InvalidOhlcv(Quarter)
  {
    hide Decide, Complete;
    var regime := Regime(market.h, structure);
    if regime.Ok? {
      AlignedInAnyDirection(market, regime.value);
      DecisionIsNoGateError(market.(direction := regime.value), now);
    }
  }

  /** The condition: every high lies below the axis, and the regime refuses the symbol or the volatility gates answer alike.
      One coincidence is left: hourly highs all below, a 15-minute high that is not, and an original that already ends with
      the code of invalid 15-minute candles. */
  predicate Reflects(feed: Feed, now: int, k: real)
    requires Load(feed, now).Ok? && Aligned(Load(feed, now).value)
  {
    var market := Load(feed, now).value;
    if FeedBelow(feed, k) then Regime(market.h, feed.hour.points.structure).Err? || GatesAgree(market, k)
    else FirstAbove(feed, k) == Quarter && Scan(feed, now) == Err(InvalidOhlcv(Quarter))
  }

  /** Whatever candle and indicator snapshots load, a symbol is bought exactly when its reflection is sold, with the same
      score and lifecycle or the same error code, if and only if the condition holds. */
  lemma LoadedScanReflectsExactlyWhen(feed: Feed, now: int, k: real)
    requires Load(feed, now).Ok?
    ensures Aligned(Load(feed, now).value)
    ensures Scan(MirrorFeed(feed, k), now) == MirrorScan(Scan(feed, now), k) <==> Reflects(feed, now, k)
  {
    hide Load, ScanSymbol, MirrorScan, MirrorStructure, GatesAgree, Regime, Aligned, MirrorContext, FeedBelow, FirstAbove, MirrorFeed;
    var market, structure := Load(feed, now).value, feed.hour.points.structure;
    LoadedIsAligned(feed, now);
    LoadReflectsExactlyBelowTheAxis(feed, now, k);
    ScanBlamesOnlyTheQuarter(market, structure, now);
    if FeedBelow(feed, k) {
      StructureTurns(feed, k);
      assert MirrorContext(market, k).Valid();
      ScanIgnoresDirection(MirrorContext(market, k), Long, MirrorStructure(structure), now);
      ScanReflectsExactlyWhen(market, structure, now, k);
    } else {
      MirroredError(Scan(feed, now), InvalidOhlcv(FirstAbove(feed, k)), k);
    }
  }

  /** A reflected feed, reflected again. */
  lemma MirrorFeedTwice(feed: Feed, k: real)
    ensures MirrorFeed(MirrorFeed(feed, k), k) == feed
  {
    MirrorSeriesTwice(feed.hour, k);
    MirrorSeriesTwice(feed.quarter, k);
    MirrorSeriesTwice(feed.five, k);
    hide MirrorSeries;
  }

  lemma MirrorSeriesTwice(s: Series, k: real)
    ensures MirrorSeries(MirrorSeries(s, k), k) == s
  {
    var bars, points := s.candles.bars, s.points.points;
    forall i | 0 <= i < |points| ensures MirrorPoint(MirrorPoint(points[i], k), k) == points[i] {
      MirrorPointTwice(points[i], k);
    }
    hide MirrorPoint;
    assert MirrorBars(MirrorBars(bars, k), k) == bars;
    assert MirrorPointList(MirrorPointList(points, k), k) == points;
  }

  lemma MirrorPointTwice(p: Point, k: real)
    ensures MirrorPoint(MirrorPoint(p, k), k) == p
  {
  }

  /** Snapshots that do not load: the reflection agrees if and only if it is refused with the same code, or loads and its own
      reflection, which is the original, agrees with it. */
  lemma RefusedScanReflectsExactlyWhen(feed: Feed, now: int, k: real)
    requires Load(feed, now).Err?
    ensures var mirrored := Load(MirrorFeed(feed, k), now);
      && (mirrored.Ok? ==> Aligned(mirrored.value))
      && (Scan(MirrorFeed(feed, k), now) == MirrorScan(Scan(feed, now), k)
          <==> if mirrored.Ok? then Reflects(MirrorFeed(feed, k), now, k) else mirrored.error == Load(feed, now).error)
  {
    hide Load, ScanSymbol, MirrorScan, Reflects, MirrorFeed, Aligned;
    var mirror := MirrorFeed(feed, k);
    MirrorFeedTwice(feed, k);
    RefusalStays(Load(feed, now).error, k);
    if Load(mirror, now).Ok? {
      LoadedScanReflectsExactlyWhen(mirror, now, k);
      MirroredError(Scan(mirror, now), Load(feed, now).error, k);
    }
  }

  lemma RefusalStays(code: Code, k: real)
    ensures MirrorScan(Err(code), k) == Err(code)
  {
  }

  lemma MirroredError(r: Result<(Direction, Option<Verdict>), Code>, code: Code, k: real)
    ensures Err(code) == MirrorScan(r, k) <==> r == Err(code)
  {
  }

  /** The direction held before the regime is known is never read. */
  lemma ScanIgnoresDirection(market: Context, d: Direction, structure: Structure, now: int)
    requires market.Valid()
    ensures market.(direction := d).Valid() && ScanSymbol(market.(direction := d), structure, now) == ScanSymbol(market, structure, now)
  {
    hide Regime, Gates, Decide;
    var regime := Regime(market.h, structure);
    if regime.Ok? { assert market.(direction := d).(direction := regime.value) == market.(direction := regime.value); }
  }

  // ---------------------------------------------------------------- from raw candles

  /** The indicator engine's answer about one candle snapshot. */
  function SeriesOf(c: Candles): Series {
    Series(c, Points(PointsOf(c.bars), c.stale, |c.bars| >= MinimumCandles, StructureOf(c.bars)))
  }

  function PointsOf(bars: seq<Bar>): (r: seq<Point>)
    ensures |r| == |bars|
    ensures forall i :: 0 <= i < |r| ==> r[i] == Point(bars[i].candle.closeTime, PointAt(bars, i), SmaAt(Volumes(bars), 20, i))
  {
    seq(|bars|, i requires 0 <= i < |bars| => Point(bars[i].candle.closeTime, PointAt(bars, i), SmaAt(Volumes(bars), 20, i)))
  }

  function FeedOf(hour: Candles, quarter: Candles, five: Candles, quoteLog: real, spreadBps: real): Feed {
    Feed(SeriesOf(hour), SeriesOf(quarter), SeriesOf(five), quoteLog, spreadBps)
  }

  lemma SeriesOfReflects(c: Candles, k: real)
    ensures SeriesOf(MirrorCandles(c, k)) == MirrorSeries(SeriesOf(c), k)
  {
    hide PointAt, MirrorIndicator, StructureOf, MirrorStructure, SmaAt;
    StructureReflects(c.bars, k);
    ClosesReflect(c.bars, k);
    var mirrored := MirrorBars(c.bars, k);
    forall i | 0 <= i < |c.bars| ensures PointsOf(mirrored)[i] == MirrorPoint(PointsOf(c.bars)[i], k) {
      PointReflects(c.bars, i, k);
    }
    assert PointsOf(mirrored) == MirrorPointList(PointsOf(c.bars), k);
  }

  /** From raw closed candles to the selected candidate: reflecting every candle of the three intervals exchanges buying and
      selling and changes nothing else, under exactly the same condition. */
  lemma CandlesToVerdictReflectExactlyWhen(hour: Candles, quarter: Candles, five: Candles, quoteLog: real, spreadBps: real, now: int, k: real)
    requires Load(FeedOf(hour, quarter, five, quoteLog, spreadBps), now).Ok?
    ensures Aligned(Load(FeedOf(hour, quarter, five, quoteLog, spreadBps), now).value)
    ensures Scan(FeedOf(MirrorCandles(hour, k), MirrorCandles(quarter, k), MirrorCandles(five, k), quoteLog, spreadBps), now)
            == MirrorScan(Scan(FeedOf(hour, quarter, five, quoteLog, spreadBps), now), k)
            <==> Reflects(FeedOf(hour, quarter, five, quoteLog, spreadBps), now, k)
    ensures FeedBelow(FeedOf(hour, quarter, five, quoteLog, spreadBps), k) <==>
              BarsBelow(hour.bars, k) && BarsBelow(quarter.bars, k) && BarsBelow(five.bars, k)
  {
    hide SeriesOf, MirrorSeries, MirrorCandles, Load, Scan, MirrorScan, Reflects, SeriesBelow, BarsBelow;
    SeriesOfReflects(hour, k);
    SeriesOfReflects(quarter, k);
    SeriesOfReflects(five, k);
    LoadedScanReflectsExactlyWhen(FeedOf(hour, quarter, five, quoteLog, spreadBps), now, k);
    CalculatedCovers(hour, k);
    CalculatedCovers(quarter, k);
    CalculatedCovers(five, k);
  }

  predicate BarsBelow(bars: seq<Bar>, k: real) { forall i :: 0 <= i < |bars| ==> bars[i].candle.high < k }

  /** Points calculated from the candles leave none of them out. */
  lemma CalculatedCovers(c: Candles, k: real)
    ensures SeriesBelow(SeriesOf(c), k) <==> BarsBelow(c.bars, k)
  {
    hide PointAt, StructureOf, SmaAt;
    CommonIsEverything(c.bars, PointsOf(c.bars), |c.bars|);
    assert c.bars[..|c.bars|] == c.bars;
  }

  lemma {:induction false} CommonIsEverything(bars: seq<Bar>, points: seq<Point>, n: nat)
    requires n <= |bars| == |points| && forall i :: 0 <= i < |bars| ==> points[i].closeTime == bars[i].candle.closeTime
    ensures var pairs := Common(bars[..n], points); |pairs| == n && forall i :: 0 <= i < n ==> pairs[i].bar == bars[i]
  {
    if n > 0 {
      CommonIsEverything(bars, points, n - 1);
      assert bars[..n][..n - 1] == bars[..n - 1];
      PointIsFound(points, n - 1);
    }
  }

  lemma {:induction false} PointIsFound(points: seq<Point>, i: nat)
    requires i < |points|
    ensures PointAtTime(points, points[i].closeTime).Some?
  {
    if i < |points| - 1 { PointIsFound(points[..|points| - 1], i); }
  }

  // ---------------------------------------------------------------- a symbol whose reflection falls below zero

  const Now := 720000000

  /** Two hundred candles, the newest closing now; `special` stands in for the fourth newest. */
  function SteadyBars(interval: Interval, candle: Candle, special: Candle): (r: seq<Bar>)
    ensures |r| == 200
    ensures forall i :: 0 <= i < 200 ==> r[i] == SteadyBar(interval, if i == 196 then special else candle, i)
  {
    seq(200, i requires 0 <= i < 200 => SteadyBar(interval, if i == 196 then special else candle, i))
  }

  function SteadyBar(interval: Interval, candle: Candle, i: int): Bar {
    var close := Now - (199 - i) * Length(interval);
    Bar(candle.(closeTime := close), 1.0, close - Length(interval), 1.0, 1)
  }

  function SteadyPoints(interval: Interval, fourth: Indicator): (r: seq<Point>)
    ensures |r| == 200
    ensures forall i :: 0 <= i < 200 ==> r[i] == Point(Now - (199 - i) * Length(interval), if i == 196 then fourth else Calm, Some(1.0))
  {
    seq(200, i requires 0 <= i < 200 => Point(Now - (199 - i) * Length(interval), if i == 196 then fourth else Calm, Some(1.0)))
  }

  function SteadySeries(interval: Interval, candle: Candle, special: Candle, fourth: Indicator, structure: Structure): Series {
    Series(Candles(SteadyBars(interval, candle, special), false), Points(SteadyPoints(interval, fourth), false, true, structure))
  }

  const SpikeCandle := Candle(179.0, 180.0, 99.0, 100.0, 0)

  /** An uptrend whose fourth newest 15-minute candle fell from 179 to 100. */
  function SpikeFeed(): Feed {
    Feed(SteadySeries(Hour, HourCandle, HourCandle, Earlier, Bullish), SteadySeries(Quarter, EntryCandle, SpikeCandle, Calm, Bullish),
         SteadySeries(Five, EntryCandle, EntryCandle, Calm, Bullish), 0.0, 0.0)
  }

  /** Candles and points with the same increasing times pair up one by one. */
  lemma {:induction false} CommonPairsUp(bars: seq<Bar>, points: seq<Point>, n: nat)
    requires n <= |bars| == |points| && PointsIncrease(points) && forall i :: 0 <= i < |bars| ==> points[i].closeTime == bars[i].candle.closeTime
    ensures var pairs := Common(bars[..n], points); |pairs| == n && forall i :: 0 <= i < n ==> pairs[i] == Pair(bars[i], points[i])
  {
    if n > 0 {
      CommonPairsUp(bars, points, n - 1);
      assert bars[..n][..n - 1] == bars[..n - 1];
      PointIsItself(points, n - 1);
    }
  }

  lemma {:induction false} PointIsItself(points: seq<Point>, i: nat)
    requires i < |points| && PointsIncrease(points)
    ensures PointAtTime(points, points[i].closeTime) == Some(points[i])
  {
    if i < |points| - 1 { PointIsItself(points[..|points| - 1], i); }
  }

  predicate Usable(c: Candle) { Positive(c) && c.high >= Max(c.open, c.close) && c.low <= Min(c.open, c.close) }

  /** The pairs of the example, spelled out. */
  ghost predicate Steady(pairs: seq<Pair>, interval: Interval, candle: Candle, special: Candle, fourth: Indicator) {
    && |pairs| == 200
    && (forall i :: 0 <= i < 200 ==> pairs[i].bar == SteadyBar(interval, if i == 196 then special else candle, i))
    && (forall i :: 0 <= i < 200 ==> pairs[i].point.indicator == if i == 196 then fourth else Calm)
    && (forall i :: 0 <= i < 200 ==> pairs[i].point.volumeSma == Some(1.0))
  }

  lemma SteadyPairs(interval: Interval, candle: Candle, special: Candle, fourth: Indicator, structure: Structure)
    ensures var s := SteadySeries(interval, candle, special, fourth, structure);
      Refused(interval, s.candles, s.points) == None && Steady(Common(s.candles.bars, s.points.points), interval, candle, special, fourth)
  {
    hide Common;
    var s := SteadySeries(interval, candle, special, fourth, structure);
    var bars, points := s.candles.bars, s.points.points;
    assert Length(interval) > 0;
    assert PointsIncrease(points) && BarsIncrease(bars);
    CommonPairsUp(bars, points, 200);
    assert bars[..200] == bars;
  }

  lemma SteadyPairsPass(pairs: seq<Pair>, interval: Interval, candle: Candle, special: Candle, fourth: Indicator)
    requires Steady(pairs, interval, candle, special, fourth) && Usable(candle) && Usable(special) && PointComplete(Point(0, fourth, Some(1.0)))
    ensures Regular(pairs, interval, Now) && AllPositive(pairs) && Age(pairs, Now) == 0 && Lapsed(interval, pairs, Now) == None
  {
    CalmIsComplete();
    assert Length(interval) > 0 && MaximumAge(interval) > 0;
    hide Complete, RequiredDepth, Length, MaximumAge;
  }

  lemma SteadyPairsBelow(pairs: seq<Pair>, interval: Interval, candle: Candle, special: Candle, fourth: Indicator, k: real)
    requires Steady(pairs, interval, candle, special, fourth)
    ensures AllBelow(pairs, k) <==> candle.high < k && special.high < k
  {
    assert pairs[0].bar.candle.high == candle.high && pairs[196].bar.candle.high == special.high;
  }

  lemma SteadySeriesAligns(interval: Interval, candle: Candle, special: Candle, fourth: Indicator, structure: Structure, k: real)
    requires Usable(candle) && Usable(special) && PointComplete(Point(0, fourth, Some(1.0)))
    ensures var s := SteadySeries(interval, candle, special, fourth, structure); var r := AlignedSeries(interval, s, Now);
      && r.Ok? && |r.value.0| == 200
      && (forall i :: 0 <= i < 200 ==> r.value.0[i].candle == (if i == 3 then special else candle).(closeTime := Now - i * Length(interval)))
      && (forall i :: 0 <= i < 200 ==> r.value.0[i].indicator == if i == 3 then fourth else Calm)
      && (SeriesBelow(s, k) <==> candle.high < k && special.high < k)
  {
    hide Common, Refused, Lapsed, Regular, AllPositive, AllBelow, Usable, PointComplete, Freshness, Length, Age, SteadyBars, SteadyPoints;
    var s := SteadySeries(interval, candle, special, fourth, structure);
    var pairs := Common(s.candles.bars, s.points.points);
    SteadyPairs(interval, candle, special, fourth, structure);
    SteadyPairsPass(pairs, interval, candle, special, fourth);
    SteadyPairsBelow(pairs, interval, candle, special, fourth, k);
  }

  /** What the checks of the example read. */
  ghost predicate SpikeMarket(market: Context) {
    && |market.h| >= 4 && |market.s| >= 1 && |market.e| >= 1
    && market.h[0].candle.close == 40.0 && market.h[0].indicator == Calm && market.h[3].indicator == Earlier
    && market.s[0].candle.close == 100.0 && market.s[0].indicator == Calm
    && market.e[0].candle == EntryCandle.(closeTime := Now) && market.e[0].indicator == Calm
  }

  lemma SpikeLoads()
    ensures var r := Load(SpikeFeed(), Now); r.Ok? && SpikeMarket(r.value)
    ensures !FeedBelow(SpikeFeed(), 170.0) && FirstAbove(SpikeFeed(), 170.0) == Quarter
  {
    CalmIsComplete();
    SteadySeriesAligns(Hour, HourCandle, HourCandle, Earlier, Bullish, 170.0);
    SteadySeriesAligns(Quarter, EntryCandle, SpikeCandle, Calm, Bullish, 170.0);
    SteadySeriesAligns(Five, EntryCandle, EntryCandle, Calm, Bullish, 170.0);
    hide AlignedSeries, SeriesBelow, SteadySeries, PointComplete, Count;
  }

  lemma SpikeTrend(market: Context)
    requires SpikeMarket(market)
    ensures Regime(market.h, Bullish) == Ok(Long)
    ensures Gates(market.s[0], market.e[0]) == Ok(true)
  {
  }

  lemma SpikeGates(market: Context)
    requires Aligned(market) && SpikeMarket(market)
    ensures GatesAgree(market, 170.0)
  {
    hide Complete;
  }

  /** Its highs reach 180. Reflected at 170 the regime and both gates still agree, but a 15-minute low falls to -10: the
      original is evaluated, the reflection refused as invalid. */
  lemma ReflectionCanFallBelowZero()
    ensures Load(SpikeFeed(), Now).Ok? && Aligned(Load(SpikeFeed(), Now).value)
    ensures Regime(Load(SpikeFeed(), Now).value.h, Bullish) == Ok(Long) && GatesAgree(Load(SpikeFeed(), Now).value, 170.0)
    ensures Scan(SpikeFeed(), Now).Ok?
    ensures Scan(MirrorFeed(SpikeFeed(), 170.0), Now) == Err(InvalidOhlcv(Quarter))
  {
    hide Load, GatesAgree, Regime, Gates, Decide, MirrorFeed, FeedBelow, FirstAbove, Aligned, SteadySeries;
    SpikeLoads();
    var market := Load(SpikeFeed(), Now).value;
    LoadedIsAligned(SpikeFeed(), Now);
    LoadReflectsExactlyBelowTheAxis(SpikeFeed(), Now, 170.0);
    SpikeTrend(market);
    SpikeGates(market);
    AlignedInAnyDirection(market, Long);
    DecisionIsNoGateError(market.(direction := Long), Now);
    SpikeStructure();
  }

  lemma SpikeStructure()
    ensures SpikeFeed().hour.points.structure == Bullish
  {
  }

  lemma CalmIsComplete()
    ensures PointComplete(Point(0, Calm, Some(1.0))) && PointComplete(Point(0, Earlier, Some(1.0)))
  {
  }
}
