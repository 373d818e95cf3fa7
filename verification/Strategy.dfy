/** The deterministic strategy kernel: gates and helpers of app/services/scanner_base.py, the five setup
    evaluators of app/services/scanner_setups.py and the scoring of app/services/scanner_scoring.py. */
module Strategy {
  import opened Trading

  datatype Interval = Hour | Quarter | Five

  /** The codes raised for one interval carry it. */
  datatype Code =
    | MissingCandles(interval: Interval) | StaleData(interval: Interval) | InsufficientHistory(interval: Interval)
    | InvalidOhlcv(interval: Interval) | IndicatorCalculationFailed
    | MissingRequiredIndicator | StructureInsufficient | TrendSideways | TrendMixed
    | PullbackSequenceFailed | PullbackZoneMissed | VolumeBelowMinimum
    | RetestNotConfirmed | BreakoutNotConfirmed | EmaRejectionNotConfirmed
    | LiquiditySweepNotConfirmed | CompressionFailed | ContinuationBreakoutFailed | StructureConditionFailed
    | VolatilityBelowMinimum | VolatilityAboveMaximum

  datatype Candle = Candle(open: real, high: real, low: real, close: real, closeTime: int)

  datatype Indicator = Indicator(
    ema20: Option<real>, ema50: Option<real>, ema200: Option<real>, rsi: Option<real>,
    macd: Option<real>, signal: Option<real>, histogram: Option<real>,
    atr: Option<real>, volumeRatio: Option<real>)

  datatype Frame = Frame(candle: Candle, indicator: Indicator) {
    /** What alignment guarantees of every frame the evaluators divide by: a present ATR is positive. */
    predicate Valid() {
      indicator.atr.Some? ==> indicator.atr.value > 0.0
    }
  }

  datatype Structure = Bullish | Bearish | Range | InsufficientData
  datatype Setup = TrendPullback | BreakoutRetest | EmaRejection | LiquiditySweepReversal | ContinuationSetup
  datatype Grade = APlus | A | BPlus | Reject

  /** Frames are newest first. `quoteLog` is log10 of the quote-volume ratio. */
  datatype Context = Context(
    direction: Direction, h: seq<Frame>, s: seq<Frame>, e: seq<Frame>,
    quoteLog: real, spreadBps: real, counts: (nat, nat, nat), freshness: (real, real, real))
  {
    predicate Valid() {
      && |h| >= 4 && |s| >= 4 && |e| >= 3
      && h[0].Valid() && e[0].Valid()
      && s[0].Valid() && s[1].Valid() && s[2].Valid() && s[3].Valid()
    }
  }

  datatype Evidence = Evidence(
    swing: Option<(real, real)>, compression: Option<(real, real)>, breakoutAt: Option<int>,
    referenceHigh: real, referenceLow: real, referenceAtr: real)

  datatype Match = Match(
    setup: Setup, reference: int, confirmedAt: int, expiresAt: int,
    level: Option<real>, selectedEma: Option<real>, trigger: real, points: real, evidence: Evidence)

  // ---------------------------------------------------------------- helpers

  function Value(field: Option<real>): Result<real, Code> {
    if field.None? then Err(MissingRequiredIndicator) else Ok(field.value)
  }

  function Clamp(value: real, lower: real, upper: real): real {
    Min(upper, Max(lower, value))
  }

  function NUp(value: real, minimum: real, full: real): real
    requires minimum < full
  {
    if value <= minimum then 0.0 else if value >= full then 1.0 else (value - minimum) / (full - minimum)
  }

  function NDown(value: real, full: real, maximum: real): real
    requires full < maximum
  {
    if value <= full then 1.0 else if value >= maximum then 0.0 else 1.0 - (value - full) / (maximum - full)
  }

  function NTarget(value: real, target: real, tolerance: real): real
    requires tolerance > 0.0
  {
    Clamp(1.0 - Abs(value - target) / tolerance, 0.0, 1.0)
  }

  /** Quotients of prices by prices, named so that proofs can treat them as a whole. */
  function Ratio(x: real, y: real): real
    requires y != 0.0
  {
    x / y
  }

  function Body(c: Candle): real { Abs(c.close - c.open) }
  function Spread(c: Candle): real { c.high - c.low }

  function Wick(c: Candle, d: Direction): real {
    if d == Long then Min(c.open, c.close) - c.low else c.high - Max(c.open, c.close)
  }

  function ClosePosition(c: Candle, d: Direction): Result<real, Code> {
    if Spread(c) <= 0.0 then Err(InvalidOhlcv(Quarter))
    else if d == Long then Ok(Ratio(c.close - c.low, Spread(c)))
    else Ok(Ratio(c.high - c.close, Spread(c)))
  }

  function Extreme(c: Candle, d: Direction): real { if d == Long then c.low else c.high }
  /** Break margin, reclaim margin, EMA extension and delta share one shape in the source. */
  function Margin(price: real, level: real, d: Direction): real { if d == Long then price - level else level - price }
  function DirectedHistogram(value: real, d: Direction): real { if d == Long then value else -value }
  function RsiMargin(value: real, d: Direction): real { if d == Long then value - 50.0 else 50.0 - value }
  function SweepDepth(c: Candle, level: real, d: Direction): real { if d == Long then level - c.low else c.high - level }
  function PreviousBreakLevel(c: Candle, d: Direction): real { if d == Long then c.high else c.low }
  /** Whichever price lies further in direction `d`. */
  function Ahead(x: real, y: real, d: Direction): real { if d == Long then Max(x, y) else Min(x, y) }
  function Boundary(high: real, low: real, d: Direction): real { if d == Long then high else low }

  predicate RsiIn(rsi: real, d: Direction, low: real, high: real, shortLow: real, shortHigh: real) {
    if d == Long then low <= rsi <= high else shortLow <= rsi <= shortHigh
  }

  function MaxHigh(frames: seq<Frame>): real
    requires frames != []
  {
    if |frames| == 1 then frames[0].candle.high else Max(frames[0].candle.high, MaxHigh(frames[1..]))
  }

  function MinLow(frames: seq<Frame>): real
    requires frames != []
  {
    if |frames| == 1 then frames[0].candle.low else Min(frames[0].candle.low, MinLow(frames[1..]))
  }

  // ---------------------------------------------------------------- gates

  function Regime(h: seq<Frame>, structure: Structure): Result<Direction, Code>
    requires |h| >= 4
  {
    if structure == InsufficientData then Err(StructureInsufficient)
    else
      var i0, i3 := h[0].indicator, h[3].indicator;
      var atr :- Value(i0.atr);
      var ema20 :- Value(i0.ema20);
      var ema50 :- Value(i0.ema50);
      var ema200 :- Value(i0.ema200);
      var rsi :- Value(i0.rsi);
      var macd :- Value(i0.macd);
      var signal :- Value(i0.signal);
      var histogram :- Value(i0.histogram);
      if structure == Range || Abs(ema20 - ema50) <= 0.25 * atr
         || (45.0 <= rsi <= 55.0 && Abs(histogram) <= 0.05 * atr)
      then Err(TrendSideways)
      else
        var bullish :- Stacked(h[0].candle.close, ema20, ema50, ema200, i3, Long);
        var bearish :- Stacked(h[0].candle.close, ema20, ema50, ema200, i3, Short);
        if bullish && structure == Bullish && 55.0 <= rsi <= 80.0 && macd > signal && histogram > 0.0 then Ok(Long)
        else if bearish && structure == Bearish && 20.0 <= rsi <= 45.0 && macd < signal && histogram < 0.0 then Ok(Short)
        else Err(TrendMixed)
  }

  /** Close beyond the ordered EMAs, and each EMA moving that way against three candles before; the older
      EMAs are only read as far as the comparisons get. */
  function Stacked(close: real, ema20: real, ema50: real, ema200: real, older: Indicator, d: Direction): Result<bool, Code> {
    if !(if d == Long then close > ema20 > ema50 > ema200 else close < ema20 < ema50 < ema200) then Ok(false)
    else
      var old20 :- Value(older.ema20);
      if Margin(ema20, old20, d) <= 0.0 then Ok(false)
      else
        var old50 :- Value(older.ema50);
        if Margin(ema50, old50, d) <= 0.0 then Ok(false)
        else
          var old200 :- Value(older.ema200);
          Ok(Margin(ema200, old200, d) >= 0.0)
  }

  function SelectedEma(s0: Frame, d: Direction): Result<real, Code> {
    var atr :- Value(s0.indicator.atr);
    if atr <= 0.0 then Err(MissingRequiredIndicator)
    else
      var extreme := Extreme(s0.candle, d);
      var ema20 :- Value(s0.indicator.ema20);
      var ema50 :- Value(s0.indicator.ema50);
      var near20, near50 := Abs(extreme - ema20), Abs(extreme - ema50);
      if near20 <= 0.20 * atr && (near20 <= near50 || near50 > 0.20 * atr) then Ok(ema20)
      else if near50 <= 0.20 * atr then Ok(ema50)
      else Err(EmaRejectionNotConfirmed)
  }

  function SharedEntry(e: seq<Frame>, d: Direction, trigger: real): Result<bool, Code>
    requires |e| >= 2
  {
    var c0, i0 := e[0].candle, e[0].indicator;
    var atr :- Value(i0.atr);
    var ema20 :- Value(i0.ema20);
    var ema50 :- Value(i0.ema50);
    var rsi :- Value(i0.rsi);
    var macd :- Value(i0.macd);
    var signal :- Value(i0.signal);
    var histogram :- Value(i0.histogram);
    var prior :- Value(e[1].indicator.histogram);
    var volume :- Value(i0.volumeRatio);
    var position :- ClosePosition(c0, d);
    Ok(if d == Long then
         c0.close > trigger && c0.close > ema20 && ema20 >= ema50 && c0.close > e[1].candle.high && c0.close > c0.open
         && position >= 0.65 && 52.0 <= rsi <= 72.0 && macd > signal && histogram > 0.0 && histogram >= prior
         && volume >= 1.10 && c0.close - ema20 <= 0.75 * atr
       else
         c0.close < trigger && c0.close < ema20 && ema20 <= ema50 && c0.close < e[1].candle.low && c0.close < c0.open
         && position >= 0.65 && 28.0 <= rsi <= 48.0 && macd < signal && histogram < 0.0 && histogram <= prior
         && volume >= 1.10 && ema20 - c0.close <= 0.75 * atr)
  }

  // ---------------------------------------------------------------- entry trigger and match record

  function EntryTrigger(setup: Setup, ctx: Context, level: Option<real>): Result<real, Code>
    requires ctx.Valid()
  {
    var d := ctx.direction;
    var atr :- Value(ctx.e[0].indicator.atr);
    var base :- SetupTrigger(setup, ctx, level, atr);
    var previous := PreviousBreakLevel(ctx.e[1].candle, d);
    Ok(Ahead(base, previous, d))
  }

  function SetupTrigger(setup: Setup, ctx: Context, level: Option<real>, atr: real): Result<real, Code>
    requires ctx.Valid()
  {
    var d := ctx.direction;
    match setup
    case TrendPullback =>
      Ok(if d == Long then Max(ctx.e[1].candle.high, ctx.e[2].candle.high) + 0.05 * atr
         else Min(ctx.e[1].candle.low, ctx.e[2].candle.low) - 0.05 * atr)
    case EmaRejection =>
      Ok(if d == Long then ctx.s[0].candle.high + 0.02 * atr else ctx.s[0].candle.low - 0.02 * atr)
    case LiquiditySweepReversal =>
      Ok(if d == Long then ctx.s[0].candle.high + 0.02 * atr else ctx.s[0].candle.low - 0.02 * atr)
    case _ =>
      if level.None? then Err(StructureConditionFailed)
      else Ok(if d == Long then level.value + 0.05 * atr else level.value - 0.05 * atr)
  }

  function ExpiryMinutes(setup: Setup): int {
    match setup
    case TrendPullback => 60
    case BreakoutRetest => 120
    case _ => 45
  }

  function MatchOf(
    setup: Setup, ctx: Context, reference: int, trigger: real, points: real,
    level: Option<real>, selected: Option<real>,
    swing: Option<(real, real)>, compression: Option<(real, real)>, breakoutAt: Option<int>): Result<Match, Code>
    requires ctx.Valid()
  {
    var c := ctx.s[0].candle;
    var atr :- Value(ctx.s[0].indicator.atr);
    Ok(Match(setup, reference, c.closeTime, reference + ExpiryMinutes(setup), level, selected, trigger, points,
             Evidence(swing, compression, breakoutAt, c.high, c.low, atr)))
  }

  /** The common ending of every evaluator: the entry trigger, then the match record. Only the breakout and
      continuation triggers read the level. */
  function Confirm(
    setup: Setup, ctx: Context, reference: int, points: real,
    level: Option<real>, selected: Option<real>,
    swing: Option<(real, real)>, compression: Option<(real, real)>, breakoutAt: Option<int>): Result<Match, Code>
    requires ctx.Valid()
  {
    var trigger :- EntryTrigger(setup, ctx, level);
    MatchOf(setup, ctx, reference, trigger, points, level, selected, swing, compression, breakoutAt)
  }

  // ---------------------------------------------------------------- trend pullback

  predicate PullbackSequence(s: seq<Frame>, d: Direction)
    requires |s| >= 4
  {
    if d == Long then s[3].candle.close > s[2].candle.close > s[1].candle.close
    else s[3].candle.close < s[2].candle.close < s[1].candle.close
  }

  predicate PullbackZone(c1: Candle, ema20: real, ema50: real, atr: real, d: Direction) {
    if d == Long then c1.low <= ema20 && c1.high >= ema50 && c1.close >= ema50 - 0.25 * atr
    else c1.high >= ema20 && c1.low <= ema50 && c1.close <= ema50 + 0.25 * atr
  }

  function PullbackRecovery(c0: Candle, ema20: real, rsi0: real, rsi1: real, hist0: real, hist1: real, d: Direction): Result<bool, Code> {
    if !(if d == Long then c0.close > c0.open && c0.close > ema20 else c0.close < c0.open && c0.close < ema20) then Ok(false)
    else
      var position :- ClosePosition(c0, d);
      Ok(position >= 0.65 && RsiIn(rsi0, d, 48.0, 65.0, 35.0, 52.0) && Margin(rsi0, rsi1, d) > 0.0 && Margin(hist0, hist1, d) > 0.0)
  }

  function ZoneDistance(close: real, ema20: real, ema50: real): real {
    var low, high := Min(ema20, ema50), Max(ema20, ema50);
    if low <= close <= high then 0.0 else Min(Abs(close - low), Abs(close - high))
  }

  function PullbackPoints(c0: Candle, c1: Candle, ema20: real, ema50: real, atr0: real, atr1: real, rsi0: real, rsi1: real,
                          hist0: real, hist1: real, d: Direction): real
    requires atr0 > 0.0 && atr1 > 0.0
  {
    8.75 * NDown(Ratio(ZoneDistance(c1.close, ema20, ema50), atr1), 0.0, 0.25)
    + 6.25 * NUp(Ratio(Body(c0), atr0), 0.10, 1.0)
    + 5.0 * NUp(Margin(rsi0, rsi1, d), 0.0, 10.0)
    + 5.0 * NUp(Ratio(Margin(hist0, hist1, d), atr0), 0.0, 0.10)
  }

  function EvaluateTrendPullback(ctx: Context): Result<Match, Code>
    requires ctx.Valid()
  {
    var d, s0, s1 := ctx.direction, ctx.s[0], ctx.s[1];
    var atr0 :- Value(s0.indicator.atr);
    var atr1 :- Value(s1.indicator.atr);
    var ema20 :- Value(s0.indicator.ema20);
    var ema20Before :- Value(s1.indicator.ema20);
    var ema50Before :- Value(s1.indicator.ema50);
    var rsi0 :- Value(s0.indicator.rsi);
    var rsi1 :- Value(s1.indicator.rsi);
    var hist0 :- Value(s0.indicator.histogram);
    var hist1 :- Value(s1.indicator.histogram);
    var volume :- Value(s0.indicator.volumeRatio);
    if !PullbackSequence(ctx.s, d) then Err(PullbackSequenceFailed)
    else
      var recovery :- PullbackRecovery(s0.candle, ema20, rsi0, rsi1, hist0, hist1, d);
      if !PullbackZone(s1.candle, ema20Before, ema50Before, atr1, d) then Err(PullbackZoneMissed)
      else if volume < 0.80 then Err(VolumeBelowMinimum)
      else if !recovery then Err(PullbackSequenceFailed)
      else
        var points := PullbackPoints(s0.candle, s1.candle, ema20Before, ema50Before, atr0, atr1, rsi0, rsi1, hist0, hist1, d);
        Confirm(TrendPullback, ctx, s0.candle.closeTime, points, None, None,
                Some((MinLow(ctx.s[..4]), MaxHigh(ctx.s[..4]))), None, None)
  }

  // ---------------------------------------------------------------- breakout and retest

  function BreakoutLevel(history: seq<Frame>, d: Direction): real
    requires history != []
  {
    if d == Long then MaxHigh(history) else MinLow(history)
  }

  function BreakoutConfirmed(b: Frame, level: real, atr: real, d: Direction): Result<bool, Code> {
    if Margin(b.candle.close, level, d) < 0.10 * atr || Body(b.candle) < 0.50 * atr then Ok(false)
    else
      var position :- ClosePosition(b.candle, d);
      if position < 0.70 then Ok(false)
      else
        var volume :- Value(b.indicator.volumeRatio);
        Ok(volume >= 1.50)
  }

  predicate RetestConfirmed(c0: Candle, level: real, atr: real, d: Direction) {
    Abs(Extreme(c0, d) - level) <= 0.20 * atr && Margin(c0.close, level, d) >= 0.05 * atr
  }

  /** What one candidate breakout candle contributes to the search. */
  datatype Attempt = Skip(breakout: bool) | Found(match_: Match)

  function RetestPoints(c0: Candle, b: Candle, level: real, atr0: real, atrb: real, volume: real, d: Direction): real
    requires atr0 > 0.0 && atrb > 0.0
  {
    6.25 * NUp(Ratio(Margin(b.close, level, d), atrb), 0.10, 0.40)
    + 7.50 * NDown(Ratio(Abs(Extreme(c0, d) - level), atr0), 0.0, 0.20)
    + 6.25 * NUp(Ratio(Margin(c0.close, level, d), atr0), 0.05, 0.40)
    + 5.0 * NUp(volume, 1.50, 2.50)
  }

  function TryBreakout(ctx: Context, index: nat): Result<Attempt, Code>
    requires ctx.Valid() && 1 <= index <= 3
  {
    if |ctx.s| < index + 21 then Ok(Skip(false))
    else
      var d, s0, b := ctx.direction, ctx.s[0], ctx.s[index];
      var level := BreakoutLevel(ctx.s[index + 1..index + 21], d);
      var atrb :- Value(b.indicator.atr);
      var atr0 :- Value(s0.indicator.atr);
      var confirmed :- BreakoutConfirmed(b, level, atrb, d);
      if !confirmed then Ok(Skip(false))
      else if !RetestConfirmed(s0.candle, level, atr0, d) then Ok(Skip(true))
      else
        var volume :- Value(s0.indicator.volumeRatio);
        if volume < 0.80 then Err(VolumeBelowMinimum)
        else
          var breakoutVolume :- Value(b.indicator.volumeRatio);
          var points := RetestPoints(s0.candle, b.candle, level, atr0, atrb, breakoutVolume, d);
          var m :- Confirm(BreakoutRetest, ctx, b.candle.closeTime, points, Some(level), None, None, None, Some(b.candle.closeTime));
          Ok(Found(m))
  }

  function SearchBreakout(ctx: Context, index: nat, seen: bool): Result<Match, Code>
    requires ctx.Valid() && 1 <= index <= 4
    decreases 4 - index
  {
    if index == 4 then Err(if seen then RetestNotConfirmed else BreakoutNotConfirmed)
    else
      var attempt :- TryBreakout(ctx, index);
      match attempt
      case Found(m) => Ok(m)
      case Skip(breakout) => SearchBreakout(ctx, index + 1, seen || breakout)
  }

  function EvaluateBreakoutRetest(ctx: Context): Result<Match, Code>
    requires ctx.Valid()
  {
    SearchBreakout(ctx, 1, false)
  }

  /** The source's loop with its flag. */
  method BreakoutRetestLoop(ctx: Context) returns (result: Result<Match, Code>)
    requires ctx.Valid()
    ensures result == EvaluateBreakoutRetest(ctx)
  {
    var found := false;
    for index := 1 to 4
      invariant EvaluateBreakoutRetest(ctx) == SearchBreakout(ctx, index, found)
    {
      var attempt := TryBreakout(ctx, index);
      if attempt.Err? { return Err(attempt.error); }
      if attempt.value.Found? { return Ok(attempt.value.match_); }
      found := found || attempt.value.breakout;
    }
    return Err(if found then RetestNotConfirmed else BreakoutNotConfirmed);
  }

  // ---------------------------------------------------------------- EMA rejection

  function RejectionValid(c0: Candle, selected: real, atr: real, rsi: real, hist0: real, hist1: real, d: Direction): Result<bool, Code>
    requires Body(c0) > 0.0
  {
    if Abs(Extreme(c0, d) - selected) > 0.20 * atr || Margin(c0.close, selected, d) < 0.05 * atr
       || Body(c0) < 0.10 * atr || Ratio(Wick(c0, d), Body(c0)) < 1.50
    then Ok(false)
    else
      var position :- ClosePosition(c0, d);
      Ok(position >= 0.70 && RsiIn(rsi, d, 45.0, 65.0, 35.0, 55.0) && Margin(hist0, hist1, d) >= 0.0)
  }

  function RejectionPoints(c0: Candle, selected: real, atr: real, position: real, volume: real, d: Direction): real
    requires atr > 0.0 && Body(c0) > 0.0
  {
    7.50 * NUp(Ratio(Wick(c0, d), Body(c0)), 1.50, 4.0)
    + 7.50 * NDown(Ratio(Abs(Extreme(c0, d) - selected), atr), 0.0, 0.20)
    + 6.25 * NUp(position, 0.70, 0.90)
    + 3.75 * NUp(volume, 1.0, 2.50)
  }

  function EvaluateEmaRejection(ctx: Context): Result<Match, Code>
    requires ctx.Valid()
  {
    var d, s0, c0 := ctx.direction, ctx.s[0], ctx.s[0].candle;
    var atr :- Value(s0.indicator.atr);
    var selected :- SelectedEma(s0, d);
    if Body(c0) <= 0.0 then Err(InvalidOhlcv(Quarter))
    else
      var rsi :- Value(s0.indicator.rsi);
      var hist0 :- Value(s0.indicator.histogram);
      var hist1 :- Value(ctx.s[1].indicator.histogram);
      var valid :- RejectionValid(c0, selected, atr, rsi, hist0, hist1, d);
      var volume :- Value(s0.indicator.volumeRatio);
      if volume < 1.0 then Err(VolumeBelowMinimum)
      else if !valid then Err(EmaRejectionNotConfirmed)
      else
        var position :- ClosePosition(c0, d);
        var points := RejectionPoints(c0, selected, atr, position, volume, d);
        Confirm(EmaRejection, ctx, c0.closeTime, points, None, Some(selected), None, None, None)
  }

  // ---------------------------------------------------------------- liquidity sweep

  function SweepValid(c0: Candle, level: real, atr: real, rsi0: real, rsi1: real, hist0: real, hist1: real, d: Direction): Result<bool, Code>
    requires Body(c0) > 0.0
  {
    if SweepDepth(c0, level, d) < 0.05 * atr || Margin(c0.close, level, d) < 0.05 * atr || Ratio(Wick(c0, d), Body(c0)) < 1.50
    then Ok(false)
    else
      var position :- ClosePosition(c0, d);
      Ok(position >= 0.70 && RsiIn(rsi0, d, 35.0, 55.0, 45.0, 65.0) && Margin(rsi0, rsi1, d) > 0.0 && Margin(hist0, hist1, d) > 0.0)
  }

  function SweepHistory(s: seq<Frame>): seq<Frame>
    requires |s| >= 4
  {
    if |s| < 11 then s[1..] else s[1..11]
  }

  function SweepPoints(c0: Candle, level: real, atr: real, volume: real, d: Direction): real
    requires atr > 0.0 && Body(c0) > 0.0
  {
    6.25 * (
      NUp(Ratio(SweepDepth(c0, level, d), atr), 0.05, 0.40)
      + NUp(Ratio(Margin(c0.close, level, d), atr), 0.05, 0.40)
      + NUp(Ratio(Wick(c0, d), Body(c0)), 1.50, 4.0)
      + NUp(volume, 1.20, 2.50))
  }

  function SweepLevel(ctx: Context): real
    requires ctx.Valid()
  {
    if ctx.direction == Long then MinLow(SweepHistory(ctx.s)) else MaxHigh(SweepHistory(ctx.s))
  }

  function EvaluateLiquiditySweep(ctx: Context): Result<Match, Code>
    requires ctx.Valid()
  {
    var d, s0, s1, c0 := ctx.direction, ctx.s[0], ctx.s[1], ctx.s[0].candle;
    var level := SweepLevel(ctx);
    var atr :- Value(s0.indicator.atr);
    if Body(c0) <= 0.0 then Err(InvalidOhlcv(Quarter))
    else
      var rsi0 :- Value(s0.indicator.rsi);
      var rsi1 :- Value(s1.indicator.rsi);
      var hist0 :- Value(s0.indicator.histogram);
      var hist1 :- Value(s1.indicator.histogram);
      var valid :- SweepValid(c0, level, atr, rsi0, rsi1, hist0, hist1, d);
      var volume :- Value(s0.indicator.volumeRatio);
      if volume < 1.20 then Err(VolumeBelowMinimum)
      else if !valid then Err(LiquiditySweepNotConfirmed)
      else
        var points := SweepPoints(c0, level, atr, volume, d);
        Confirm(LiquiditySweepReversal, ctx, c0.closeTime, points, Some(level), None, None, None, None)
  }

  // ---------------------------------------------------------------- continuation

  function CompressedFrame(f: Frame, d: Direction): Result<bool, Code> {
    var atr :- Value(f.indicator.atr);
    if Spread(f.candle) > 0.90 * atr then Ok(false)
    else
      var ema20 :- Value(f.indicator.ema20);
      if Margin(f.candle.close, ema20, d) <= 0.0 then Ok(false)
      else
        var ema50 :- Value(f.indicator.ema50);
        Ok(Margin(ema20, ema50, d) > 0.0)
  }

  function AllCompressed(frames: seq<Frame>, d: Direction): Result<bool, Code> {
    if frames == [] then Ok(true)
    else
      var first :- CompressedFrame(frames[0], d);
      if !first then Ok(false) else AllCompressed(frames[1..], d)
  }

  function ContinuationBreak(s0: Frame, s1: Frame, boundary: real, atr: real, rsi: real, hist: real, d: Direction): Result<bool, Code> {
    if Margin(s0.candle.close, boundary, d) < 0.05 * atr || Body(s0.candle) < 0.40 * atr then Ok(false)
    else
      var position :- ClosePosition(s0.candle, d);
      if position < 0.70 || !RsiIn(rsi, d, 55.0, 70.0, 30.0, 45.0) || DirectedHistogram(hist, d) <= 0.0 then Ok(false)
      else
        var before :- Value(s1.indicator.histogram);
        Ok(Margin(hist, before, d) >= 0.0)
  }

  function ContinuationPoints(c0: Candle, width: real, boundary: real, atr: real, volume: real, d: Direction): real
    requires atr > 0.0
  {
    6.25 * (
      NDown(Ratio(width, atr), 0.75, 1.50)
      + NUp(Ratio(Margin(c0.close, boundary, d), atr), 0.05, 0.40)
      + NUp(Ratio(Body(c0), atr), 0.40, 1.0)
      + NUp(volume, 1.20, 2.50))
  }

  function EvaluateContinuation(ctx: Context): Result<Match, Code>
    requires ctx.Valid()
  {
    var d, s0 := ctx.direction, ctx.s[0];
    var compression := ctx.s[1..4];
    var atr :- Value(s0.indicator.atr);
    var high, low := MaxHigh(compression), MinLow(compression);
    var compressed :- AllCompressed(compression, d);
    var v1 :- Value(ctx.s[1].indicator.volumeRatio);
    var v2 :- Value(ctx.s[2].indicator.volumeRatio);
    var v3 :- Value(ctx.s[3].indicator.volumeRatio);
    if !compressed || high - low > 1.50 * atr || (v1 + v2 + v3) / 3.0 > 1.10 then Err(CompressionFailed)
    else
      var boundary := Boundary(high, low, d);
      var rsi :- Value(s0.indicator.rsi);
      var hist :- Value(s0.indicator.histogram);
      var broke :- ContinuationBreak(s0, ctx.s[1], boundary, atr, rsi, hist, d);
      var volume :- Value(s0.indicator.volumeRatio);
      if volume < 1.20 then Err(VolumeBelowMinimum)
      else if !broke then Err(ContinuationBreakoutFailed)
      else
        var points := ContinuationPoints(s0.candle, high - low, boundary, atr, volume, d);
        Confirm(ContinuationSetup, ctx, s0.candle.closeTime, points, Some(boundary), None, None, Some((high, low)), None)
  }

  // ---------------------------------------------------------------- all setups

  const SetupOrder: seq<Setup> := [TrendPullback, BreakoutRetest, EmaRejection, LiquiditySweepReversal, ContinuationSetup]

  function Evaluate(setup: Setup, ctx: Context): Result<Match, Code>
    requires ctx.Valid()
  {
    match setup
    case TrendPullback => EvaluateTrendPullback(ctx)
    case BreakoutRetest => EvaluateBreakoutRetest(ctx)
    case EmaRejection => EvaluateEmaRejection(ctx)
    case LiquiditySweepReversal => EvaluateLiquiditySweep(ctx)
    case ContinuationSetup => EvaluateContinuation(ctx)
  }

  function Accepted(ctx: Context, setups: seq<Setup>): seq<Match>
    requires ctx.Valid()
  {
    if setups == [] then []
    else
      var r := Evaluate(setups[|setups| - 1], ctx);
      Accepted(ctx, setups[..|setups| - 1]) + (if r.Ok? then [r.value] else [])
  }

  function Failures(ctx: Context, setups: seq<Setup>): seq<Code>
    requires ctx.Valid()
  {
    if setups == [] then []
    else
      var r := Evaluate(setups[|setups| - 1], ctx);
      Failures(ctx, setups[..|setups| - 1]) + (if r.Err? then [r.error] else [])
  }

  method EvaluateSetups(ctx: Context) returns (matches: seq<Match>, failures: seq<Code>)
    requires ctx.Valid()
    ensures matches == Accepted(ctx, SetupOrder) && failures == Failures(ctx, SetupOrder)
    ensures |matches| + |failures| == 5
  {
    hide Evaluate;
    matches, failures := [], [];
    for i := 0 to |SetupOrder|
      invariant matches == Accepted(ctx, SetupOrder[..i]) && failures == Failures(ctx, SetupOrder[..i])
      invariant |matches| + |failures| == i
    {
      var r := Evaluate(SetupOrder[i], ctx);
      if r.Ok? { matches := matches + [r.value]; } else { failures := failures + [r.error]; }
      assert SetupOrder[..i + 1][..i] == SetupOrder[..i];
    }
    assert SetupOrder[..|SetupOrder|] == SetupOrder;
  }

  // ---------------------------------------------------------------- score

  function RoundHalfUp(value: real): int { (value + 0.5).Floor }

  function GradeOf(score: int): Grade {
    if score >= 90 then APlus else if score >= 85 then A else if score >= 80 then BPlus else Reject
  }

  function MinimumVolume(setup: Setup): real {
    match setup
    case TrendPullback => 0.80
    case BreakoutRetest => 0.80
    case EmaRejection => 1.00
    case LiquiditySweepReversal => 1.20
    case ContinuationSetup => 1.20
  }

  datatype Score = Score(score: int, confidence: int, grade: Grade, components: seq<real>)

  function TrendPoints(h0: Frame, h3: Frame, d: Direction): Result<real, Code>
    requires h0.Valid()
  {
    var ema20 :- Value(h0.indicator.ema20);
    var ema50 :- Value(h0.indicator.ema50);
    var atr :- Value(h0.indicator.atr);
    var older :- Value(h3.indicator.ema50);
    var ema200 :- Value(h0.indicator.ema200);
    var rsi :- Value(h0.indicator.rsi);
    Ok(7.0 * NUp(Ratio(Abs(ema20 - ema50), atr), 0.25, 1.0)
       + 5.0 * NUp(Ratio(Margin(ema50, older, d), atr), 0.0, 0.75)
       + 4.0 * NUp(Ratio(Margin(h0.candle.close, ema200, d), atr), 0.0, 3.0)
       + 4.0 * NUp(RsiMargin(rsi, d), 5.0, 15.0))
  }

  function EntryPoints(e0: Frame, trigger: real, d: Direction): Result<real, Code>
    requires e0.Valid()
  {
    var atr :- Value(e0.indicator.atr);
    var ema20 :- Value(e0.indicator.ema20);
    var position :- ClosePosition(e0.candle, d);
    var volume :- Value(e0.indicator.volumeRatio);
    var hist :- Value(e0.indicator.histogram);
    Ok(7.0 * NUp(Ratio(Margin(e0.candle.close, trigger, d), atr), 0.0, 0.30)
       + 4.0 * NUp(position, 0.65, 0.90)
       + 4.0 * NUp(volume, 1.10, 2.0)
       + 3.0 * NUp(Ratio(DirectedHistogram(hist, d), atr), 0.0, 0.10)
       + 2.0 * NDown(Ratio(Abs(Margin(e0.candle.close, ema20, d)), atr), 0.25, 0.75))
  }

  function MomentumPoints(s0: Frame, s1: Frame, e0: Frame, d: Direction): Result<real, Code>
    requires s0.Valid() && e0.Valid()
  {
    var rsi :- Value(s0.indicator.rsi);
    var hist0 :- Value(s0.indicator.histogram);
    var atr :- Value(s0.indicator.atr);
    var hist1 :- Value(s1.indicator.histogram);
    var entryHist :- Value(e0.indicator.histogram);
    var entryAtr :- Value(e0.indicator.atr);
    Ok(4.5 * NTarget(rsi, if d == Long then 60.0 else 40.0, 15.0)
       + 4.5 * NUp(Ratio(DirectedHistogram(hist0, d), atr), 0.0, 0.10)
       + 3.0 * NUp(Ratio(Margin(hist0, hist1, d), atr), 0.0, 0.10)
       + 3.0 * NUp(Ratio(DirectedHistogram(entryHist, d), entryAtr), 0.0, 0.10))
  }

  function Vote(condition: bool): real { if condition then 1.0 else 0.0 }

  function Completeness(counts: (nat, nat, nat)): real {
    (Min(counts.0 as real / 250.0, 1.0) + Min(counts.1 as real / 250.0, 1.0) + Min(counts.2 as real / 250.0, 1.0)) / 3.0
  }

  function Votes(s0: Frame, e0: Frame, d: Direction): Result<real, Code> {
    var ema20 :- Value(s0.indicator.ema20);
    var hist :- Value(s0.indicator.histogram);
    var entryHist :- Value(e0.indicator.histogram);
    Ok(3.0 + Vote(Margin(s0.candle.close, ema20, d) > 0.0) + Vote(DirectedHistogram(hist, d) > 0.0) + Vote(DirectedHistogram(entryHist, d) > 0.0))
  }

  /** The direction-free arithmetic that turns the components into score, confidence and grade. */
  function Combine(
    trend: real, setupPoints: real, entry: real, momentum: real, volume: real, liquidity: real,
    freshness: (real, real, real), completeness: real, votes: real, entryReady: bool): Score
  {
    var recency := 5.0 * (freshness.0 + freshness.1 + freshness.2) / 3.0;
    var raw := Clamp(trend + setupPoints + entry + momentum + volume + liquidity + recency, 0.0, 100.0);
    var margin := 0.60 * (setupPoints / 25.0) + 0.40 * (entry / 20.0);
    var confidence := RoundHalfUp(Clamp(
      25.0 * completeness + 20.0 * ((freshness.0 + freshness.1 + freshness.2) / 3.0)
      + 25.0 * margin + 20.0 * (votes / 6.0) + 10.0 * (liquidity / 5.0), 0.0, 100.0));
    var rounded := RoundHalfUp(raw);
    var effective := if (!entryReady || 60 <= confidence <= 69) && rounded > 84 then 84 else rounded;
    Score(effective, confidence, GradeOf(effective), [trend, setupPoints, entry, momentum, volume, liquidity, recency])
  }

  function ScoreOf(ctx: Context, m: Match, entryReady: bool): Result<Score, Code>
    requires ctx.Valid()
  {
    var d, s0, e0 := ctx.direction, ctx.s[0], ctx.e[0];
    var trend :- TrendPoints(ctx.h[0], ctx.h[3], d);
    var entry :- EntryPoints(e0, m.trigger, d);
    var momentum :- MomentumPoints(s0, ctx.s[1], e0, d);
    var setupVolume :- Value(s0.indicator.volumeRatio);
    var entryVolume :- Value(e0.indicator.volumeRatio);
    var volume := 4.0 * NUp(setupVolume, MinimumVolume(m.setup), 2.50) + 6.0 * NUp(entryVolume, 1.10, 2.50);
    var liquidity := 3.0 * Clamp(ctx.quoteLog / 2.0, 0.0, 1.0) + 2.0 * Clamp((10.0 - ctx.spreadBps) / 10.0, 0.0, 1.0);
    var votes :- Votes(s0, e0, d);
    Ok(Combine(trend, m.points, entry, momentum, volume, liquidity, ctx.freshness, Completeness(ctx.counts), votes, entryReady))
  }

  // ---------------------------------------------------------------- from match to candidate

  datatype Lifecycle = Rejected | WatchNear | Qualified

  datatype Verdict = Verdict(match_: Match, entryReady: bool, score: Score, lifecycle: Lifecycle)

  function LifecycleOf(score: Score, entryReady: bool): Lifecycle {
    if score.confidence < 60 || score.score < 80 then Rejected
    else if entryReady && score.score >= 85 && score.confidence >= 70 && (score.grade == A || score.grade == APlus) then Qualified
    else WatchNear
  }

  /** A match judged at exchange time `now`: the entry rule is consulted only after confirmation and before expiry. */
  function Judge(ctx: Context, m: Match, now: int): Result<Verdict, Code>
    requires ctx.Valid()
  {
    var ready :- if ctx.e[0].candle.closeTime > m.confirmedAt && now < m.expiresAt then SharedEntry(ctx.e, ctx.direction, m.trigger) else Ok(false);
    var score :- ScoreOf(ctx, m, ready);
    Ok(Verdict(m, ready, score, LifecycleOf(score, ready)))
  }

  // ---------------------------------------------------------------- one symbol

  /** The gate on ATR as a fraction of the close. */
  function Volatility(f: Frame, minimum: real, maximum: real): Result<bool, Code> {
    var atr :- Value(f.indicator.atr);
    if atr <= 0.0 || f.candle.close <= 0.0 then Err(MissingRequiredIndicator)
    else if Ratio(atr, f.candle.close) < minimum then Err(VolatilityBelowMinimum)
    else if Ratio(atr, f.candle.close) > maximum then Err(VolatilityAboveMaximum)
    else Ok(true)
  }

  /** The 15-minute gate, then the 5-minute gate. */
  function Gates(s0: Frame, e0: Frame): Result<bool, Code> {
    var quarter :- Volatility(s0, 0.0015, 0.025);
    Volatility(e0, 0.0005, 0.015)
  }

  /** Every accepted match judged; the first error ends the evaluation. */
  function JudgeAll(ctx: Context, matches: seq<Match>, now: int): Result<seq<Verdict>, Code>
    requires ctx.Valid()
  {
    if matches == [] then Ok([])
    else
      var rest :- JudgeAll(ctx, matches[..|matches| - 1], now);
      var last :- Judge(ctx, matches[|matches| - 1], now);
      Ok(rest + [last])
  }

  function LifecycleRank(l: Lifecycle): nat {
    match l
    case Qualified => 0
    case WatchNear => 1
    case Rejected => 3
  }

  /** The alphabetical order of the setup names. */
  function SetupRank(setup: Setup): nat {
    match setup
    case BreakoutRetest => 0
    case ContinuationSetup => 1
    case EmaRejection => 2
    case LiquiditySweepReversal => 3
    case TrendPullback => 4
  }

  /** Candidate order within one symbol, where universe rank, spread, volume and name are equal. */
  predicate Precedes(a: Verdict, b: Verdict) {
    var (la, lb) := (LifecycleRank(a.lifecycle), LifecycleRank(b.lifecycle));
    la < lb || (la == lb && (
      a.score.score > b.score.score || (a.score.score == b.score.score && (
        a.score.confidence > b.score.confidence || (a.score.confidence == b.score.confidence && (
          SetupRank(a.match_.setup) < SetupRank(b.match_.setup)
          || (SetupRank(a.match_.setup) == SetupRank(b.match_.setup) && a.match_.reference < b.match_.reference)))))))
  }

  /** The head of the sorted candidates. */
  function Best(verdicts: seq<Verdict>): Verdict
    requires verdicts != []
  {
    if |verdicts| == 1 then verdicts[0]
    else
      var best := Best(verdicts[..|verdicts| - 1]);
      if Precedes(verdicts[|verdicts| - 1], best) then verdicts[|verdicts| - 1] else best
  }

  /** What is evaluated once the gates are passed: all setups, every match judged, the best kept. */
  function Decide(ctx: Context, now: int): Result<Option<Verdict>, Code>
    requires ctx.Valid()
  {
    var verdicts :- JudgeAll(ctx, Accepted(ctx, SetupOrder), now);
    Ok(if verdicts == [] then None else Some(Best(verdicts)))
  }

  /** One symbol: the regime fixes the direction, the volatility gates admit it, the best candidate is selected. */
  function ScanSymbol(market: Context, structure: Structure, now: int): Result<(Direction, Option<Verdict>), Code>
    requires market.Valid()
  {
    var d :- Regime(market.h, structure);
    var gates :- Gates(market.s[0], market.e[0]);
    var chosen :- Decide(market.(direction := d), now);
    Ok((d, chosen))
  }

  lemma PrecedenceSplits(a: Verdict, b: Verdict, c: Verdict)
    requires Precedes(a, c)
    ensures Precedes(a, b) || Precedes(b, c)
  {
    hide LifecycleRank, SetupRank;
  }

  /** The selected candidate is one of them and none of them precedes it. */
  lemma {:induction false} BestIsFirst(verdicts: seq<Verdict>)
    requires verdicts != []
    ensures Best(verdicts) in verdicts && forall v :: v in verdicts ==> !Precedes(v, Best(verdicts))
  {
    hide LifecycleRank, SetupRank;
    if |verdicts| > 1 {
      var init, last := verdicts[..|verdicts| - 1], verdicts[|verdicts| - 1];
      BestIsFirst(init);
      forall v | v in verdicts ensures !Precedes(v, Best(verdicts)) {
        if v in init && Precedes(last, Best(init)) && Precedes(v, last) { PrecedenceSplits(v, Best(init), last); }
      }
    }
  }

  // ---------------------------------------------------------------- invalidation of a stored setup

  datatype StoredEvidence = StoredEvidence(
    swingLow: real, swingHigh: real,
    referenceLow: Option<real>, referenceHigh: Option<real>, referenceExtreme: Option<real>)

  datatype Candidate = Candidate(direction: Direction, setup: Setup, level: Option<real>, selectedEma: Option<real>, evidence: StoredEvidence)

  function OrElse(first: Option<real>, second: Option<real>, default_: real): real {
    if first.Some? then first.value else if second.Some? then second.value else default_
  }

  /** `price` lies on the losing side of `level` by more than `slack`. */
  predicate Beyond(price: real, level: real, slack: real, d: Direction) {
    if d == Long then price < level - slack else price > level + slack
  }

  function ReferenceExtreme(c: Candidate, s0: Frame): real {
    if c.direction == Long then OrElse(c.evidence.referenceLow, c.evidence.referenceExtreme, s0.candle.low)
    else OrElse(c.evidence.referenceHigh, c.evidence.referenceExtreme, s0.candle.high)
  }

  function Invalidated(c: Candidate, s0: Frame, e0: Frame): Result<bool, Code> {
    var d := c.direction;
    var atr15 :- Value(s0.indicator.atr);
    var atr5 :- Value(e0.indicator.atr);
    match c.setup
    case TrendPullback =>
      var ema50 :- Value(s0.indicator.ema50);
      Ok(Beyond(s0.candle.close, ema50, 0.25 * atr15, d)
         || Beyond(e0.candle.close, if d == Long then c.evidence.swingLow else c.evidence.swingHigh, 0.10 * atr5, d))
    case BreakoutRetest => Ok(c.level.Some? && Beyond(s0.candle.close, c.level.value, 0.15 * atr15, d))
    case EmaRejection =>
      Ok(c.selectedEma.Some? && (Beyond(s0.candle.close, c.selectedEma.value, 0.20 * atr15, d)
                                 || Beyond(s0.candle.close, ReferenceExtreme(c, s0), 0.05 * atr15, d)))
    case LiquiditySweepReversal => Ok(Beyond(e0.candle.close, ReferenceExtreme(c, s0), 0.05 * atr5, d))
    case ContinuationSetup => Ok(c.level.Some? && Beyond(s0.candle.close, c.level.value, 0.15 * atr15, d))
  }

  /** The price at which the invalidation rule above starts to hold, as risk_stop_price computes it. */
  function StopBoundary(c: Candidate, s0: Frame, e0: Frame): Result<Option<real>, Code> {
    var d := c.direction;
    var atr15 :- Value(s0.indicator.atr);
    var atr5 :- Value(e0.indicator.atr);
    match c.setup
    case TrendPullback =>
      var ema50 :- Value(s0.indicator.ema50);
      Ok(Some(Ahead(Away(ema50, 0.25 * atr15, d), Away(if d == Long then c.evidence.swingLow else c.evidence.swingHigh, 0.10 * atr5, d), d)))
    case BreakoutRetest => Ok(if c.level.None? then None else Some(Away(c.level.value, 0.15 * atr15, d)))
    case EmaRejection =>
      if c.selectedEma.None? || c.evidence.referenceLow.None? || c.evidence.referenceHigh.None? then Ok(None)
      else Ok(Some(Ahead(Away(c.selectedEma.value, 0.20 * atr15, d), Away(ReferenceExtreme(c, s0), 0.05 * atr15, d), d)))
    case LiquiditySweepReversal =>
      if c.evidence.referenceLow.None? || c.evidence.referenceHigh.None? then Ok(None)
      else Ok(Some(Away(ReferenceExtreme(c, s0), 0.05 * atr5, d)))
    case ContinuationSetup => Ok(if c.level.None? then None else Some(Away(c.level.value, 0.15 * atr15, d)))
  }

  function Away(level: real, slack: real, d: Direction): real { if d == Long then level - slack else level + slack }

  /** The boundary, published only when positive and on the losing side of the entry trigger. */
  function RiskStopPrice(c: Candidate, trigger: real, s0: Frame, e0: Frame): Result<Option<real>, Code> {
    var boundary :- StopBoundary(c, s0, e0);
    if boundary.None? || boundary.value <= 0.0 || Margin(trigger, boundary.value, c.direction) <= 0.0 then Ok(None)
    else Ok(boundary)
  }

  /** `f` with its close moved to `price`. */
  function ClosedAt(f: Frame, price: real): Frame {
    f.(candle := f.candle.(close := price))
  }

  /** The stop handed to Risk is the invalidation boundary: a price is past it exactly when the stored setup,
      judged with both timeframes closing at that price, is invalidated. */
  lemma StopIsTheInvalidationBoundary(c: Candidate, trigger: real, s0: Frame, e0: Frame, price: real)
    requires RiskStopPrice(c, trigger, s0, e0).Ok? && RiskStopPrice(c, trigger, s0, e0).value.Some?
    ensures var stop := RiskStopPrice(c, trigger, s0, e0).value.value;
      && stop > 0.0 && Margin(trigger, stop, c.direction) > 0.0
      && Invalidated(c, ClosedAt(s0, price), ClosedAt(e0, price)) == Ok(Margin(price, stop, c.direction) < 0.0)
  {
  }
}
