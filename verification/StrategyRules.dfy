/** When the strategy says yes, written out per direction in candle and indicator fields: the regime, the gates, the five
    setups, the trigger and the entry rule (app/services/scanner_base.py, app/services/scanner_setups.py). */
module StrategyRules {
  import opened Trading
  import opened Strategy

  /** The value of a field that is present. */
  function V(field: Option<real>): real { if field.Some? then field.value else 0.0 }

  /** Where the close lies in the candle, as a fraction from the losing end. */
  function Place(c: Candle, d: Direction): real {
    if c.high <= c.low then 0.0
    else if d == Long then (c.close - c.low) / (c.high - c.low) else (c.high - c.close) / (c.high - c.low)
  }

  lemma PlaceIsPosition(c: Candle, d: Direction)
    ensures ClosePosition(c, d) == if c.high <= c.low then Err(InvalidOhlcv(Quarter)) else Ok(Place(c, d))
  {
  }

  // ---------------------------------------------------------------- the regime and the gates

  predicate Readable(i: Indicator) {
    && i.atr.Some? && i.ema20.Some? && i.ema50.Some? && i.ema200.Some?
    && i.rsi.Some? && i.macd.Some? && i.signal.Some? && i.histogram.Some?
  }

  /** Averages apart by a quarter ATR, and not a middling RSI with a flat histogram. */
  predicate Trending(i: Indicator) {
    && Abs(V(i.ema20) - V(i.ema50)) > 0.25 * V(i.atr)
    && (45.0 <= V(i.rsi) <= 55.0 ==> Abs(V(i.histogram)) > 0.05 * V(i.atr))
  }

  ghost predicate Uptrend(h: seq<Frame>)
    requires |h| >= 4
  {
    var i, older := h[0].indicator, h[3].indicator;
    && h[0].candle.close > V(i.ema20) && V(i.ema20) > V(i.ema50) && V(i.ema50) > V(i.ema200)
    && older.ema20.Some? && V(i.ema20) > V(older.ema20) && older.ema50.Some? && V(i.ema50) > V(older.ema50)
    && older.ema200.Some? && V(i.ema200) >= V(older.ema200)
    && 55.0 <= V(i.rsi) <= 80.0 && V(i.macd) > V(i.signal) && V(i.histogram) > 0.0
  }

  ghost predicate Downtrend(h: seq<Frame>)
    requires |h| >= 4
  {
    var i, older := h[0].indicator, h[3].indicator;
    && h[0].candle.close < V(i.ema20) && V(i.ema20) < V(i.ema50) && V(i.ema50) < V(i.ema200)
    && older.ema20.Some? && V(i.ema20) < V(older.ema20) && older.ema50.Some? && V(i.ema50) < V(older.ema50)
    && older.ema200.Some? && V(i.ema200) <= V(older.ema200)
    && 20.0 <= V(i.rsi) <= 45.0 && V(i.macd) < V(i.signal) && V(i.histogram) < 0.0
  }

  lemma RegimeExactlyWhen(h: seq<Frame>, structure: Structure)
    requires |h| >= 4
    ensures Regime(h, structure) == Ok(Long) <==> Readable(h[0].indicator) && Trending(h[0].indicator) && structure == Bullish && Uptrend(h)
    ensures Regime(h, structure) == Ok(Short) <==> Readable(h[0].indicator) && Trending(h[0].indicator) && structure == Bearish && Downtrend(h)
    ensures Regime(h, structure) == Err(TrendSideways) <==>
      structure != InsufficientData && Readable(h[0].indicator) && (structure == Range || !Trending(h[0].indicator))
  {
    hide Abs;
  }

  /** ATR between the limits, as a fraction of the close. */
  predicate Lively(f: Frame, minimum: real, maximum: real) {
    && f.indicator.atr.Some? && f.indicator.atr.value > 0.0 && f.candle.close > 0.0
    && minimum <= f.indicator.atr.value / f.candle.close <= maximum
  }

  lemma GatesExactlyWhen(s0: Frame, e0: Frame)
    ensures Gates(s0, e0).Ok? <==> Lively(s0, 0.0015, 0.025) && Lively(e0, 0.0005, 0.015)
  {
  }

  // ---------------------------------------------------------------- highs, lows and triggers

  ghost predicate IsHighest(frames: seq<Frame>, x: real) {
    (forall i :: 0 <= i < |frames| ==> frames[i].candle.high <= x) && exists i :: 0 <= i < |frames| && frames[i].candle.high == x
  }

  ghost predicate IsLowest(frames: seq<Frame>, x: real) {
    (forall i :: 0 <= i < |frames| ==> x <= frames[i].candle.low) && exists i :: 0 <= i < |frames| && frames[i].candle.low == x
  }

  lemma {:induction false} Extremes(frames: seq<Frame>)
    requires frames != []
    ensures IsHighest(frames, MaxHigh(frames)) && IsLowest(frames, MinLow(frames))
  {
    if |frames| > 1 {
      Extremes(frames[1..]);
      var i :| 0 <= i < |frames| - 1 && frames[1..][i].candle.high == MaxHigh(frames[1..]);
      var j :| 0 <= j < |frames| - 1 && frames[1..][j].candle.low == MinLow(frames[1..]);
      assert frames[i + 1] == frames[1..][i] && frames[j + 1] == frames[1..][j];
      forall k | 0 <= k < |frames| ensures MinLow(frames) <= frames[k].candle.low && frames[k].candle.high <= MaxHigh(frames) {
        if k > 0 { assert frames[k] == frames[1..][k - 1]; }
      }
      assert frames[0].candle.high == MaxHigh(frames) || frames[i + 1].candle.high == MaxHigh(frames);
      assert frames[0].candle.low == MinLow(frames) || frames[j + 1].candle.low == MinLow(frames);
    }
  }

  /** The price of the setup beyond which an entry may be taken, before the previous 5-minute candle is considered. */
  function Base(m: Match, ctx: Context): real
    requires ctx.Valid()
  {
    var atr := V(ctx.e[0].indicator.atr);
    var e1, e2, s0 := ctx.e[1].candle, ctx.e[2].candle, ctx.s[0].candle;
    if ctx.direction == Long then
      match m.setup
      case TrendPullback => (if e1.high > e2.high then e1.high else e2.high) + 0.05 * atr
      case BreakoutRetest => V(m.level) + 0.05 * atr
      case EmaRejection => s0.high + 0.02 * atr
      case LiquiditySweepReversal => s0.high + 0.02 * atr
      case ContinuationSetup => V(m.level) + 0.05 * atr
    else
      match m.setup
      case TrendPullback => (if e1.low < e2.low then e1.low else e2.low) - 0.05 * atr
      case BreakoutRetest => V(m.level) - 0.05 * atr
      case EmaRejection => s0.low - 0.02 * atr
      case LiquiditySweepReversal => s0.low - 0.02 * atr
      case ContinuationSetup => V(m.level) - 0.05 * atr
  }

  /** What every accepted match records: the trigger is the base or the previous 5-minute extreme, whichever is further, and it
      is confirmed by the newest 15-minute candle and expires after the minutes of its setup. */
  ghost predicate Recorded(m: Match, ctx: Context)
    requires ctx.Valid()
  {
    var previous := ctx.e[1].candle;
    && ctx.e[0].indicator.atr.Some?
    && (if ctx.direction == Long then Base(m, ctx) <= m.trigger && previous.high <= m.trigger else m.trigger <= Base(m, ctx) && m.trigger <= previous.low)
    && (m.trigger == Base(m, ctx) || m.trigger == if ctx.direction == Long then previous.high else previous.low)
    && m.confirmedAt == ctx.s[0].candle.closeTime
    && m.expiresAt == m.reference + (match m.setup case TrendPullback => 60 case BreakoutRetest => 120 case EmaRejection => 45
                                     case LiquiditySweepReversal => 45 case ContinuationSetup => 45)
    && m.evidence.referenceHigh == ctx.s[0].candle.high && m.evidence.referenceLow == ctx.s[0].candle.low
    && m.evidence.referenceAtr == V(ctx.s[0].indicator.atr)
  }

  lemma ConfirmRecords(
    setup: Setup, ctx: Context, reference: int, points: real, level: Option<real>, selected: Option<real>,
    swing: Option<(real, real)>, compression: Option<(real, real)>, breakoutAt: Option<int>)
    requires ctx.Valid() && ctx.s[0].indicator.atr.Some?
    requires setup == BreakoutRetest || setup == ContinuationSetup ==> level.Some?
    ensures var r := Confirm(setup, ctx, reference, points, level, selected, swing, compression, breakoutAt);
      && (r.Ok? <==> ctx.e[0].indicator.atr.Some?)
      && (r.Ok? ==>
            && Recorded(r.value, ctx) && r.value.setup == setup && r.value.reference == reference && r.value.points == points
            && r.value.level == level && r.value.selectedEma == selected
            && r.value.evidence.swing == swing && r.value.evidence.compression == compression && r.value.evidence.breakoutAt == breakoutAt)
  {
  }

  // ---------------------------------------------------------------- the entry rule

  /** The newest 5-minute candle has crossed the trigger in the direction, in every field the rule reads. */
  ghost predicate Entered(e: seq<Frame>, d: Direction, trigger: real)
    requires |e| >= 2
  {
    var c, i, before := e[0].candle, e[0].indicator, e[1];
    && Readable(i.(ema200 := Some(0.0))) && before.indicator.histogram.Some? && i.volumeRatio.Some? && c.high > c.low
    && V(i.volumeRatio) >= 1.10 && Place(c, d) >= 0.65
    && (d == Long ==>
          && c.close > trigger && c.close > V(i.ema20) && V(i.ema20) >= V(i.ema50)
          && c.close > before.candle.high && c.close > c.open
          && 52.0 <= V(i.rsi) <= 72.0 && V(i.macd) > V(i.signal)
          && V(i.histogram) > 0.0 && V(i.histogram) >= V(before.indicator.histogram)
          && c.close - V(i.ema20) <= 0.75 * V(i.atr))
    && (d == Short ==>
          && c.close < trigger && c.close < V(i.ema20) && V(i.ema20) <= V(i.ema50)
          && c.close < before.candle.low && c.close < c.open
          && 28.0 <= V(i.rsi) <= 48.0 && V(i.macd) < V(i.signal)
          && V(i.histogram) < 0.0 && V(i.histogram) <= V(before.indicator.histogram)
          && V(i.ema20) - c.close <= 0.75 * V(i.atr))
  }

  lemma EntryExactlyWhen(e: seq<Frame>, d: Direction, trigger: real)
    requires |e| >= 2
    ensures SharedEntry(e, d, trigger) == Ok(true) <==> Entered(e, d, trigger)
  {
    PlaceIsPosition(e[0].candle, d);
    hide ClosePosition, Place;
  }

  /** A judged match is ready exactly when its 5-minute candle came after confirmation, it has not expired, and the candle has
      entered; and it qualifies only then, so that its close lies strictly beyond its trigger. */
  lemma ReadyExactlyWhen(ctx: Context, m: Match, now: int)
    requires ctx.Valid()
    ensures var r := Judge(ctx, m, now); r.Ok? ==>
      && r.value.match_ == m
      && (r.value.entryReady <==> m.confirmedAt < ctx.e[0].candle.closeTime && now < m.expiresAt && Entered(ctx.e, ctx.direction, m.trigger))
      && (r.value.lifecycle == Qualified ==>
            && r.value.entryReady
            && (if ctx.direction == Long then ctx.e[0].candle.close > m.trigger else ctx.e[0].candle.close < m.trigger))
  {
    EntryExactlyWhen(ctx.e, ctx.direction, m.trigger);
    hide SharedEntry, ScoreOf, Place;
  }

  // ---------------------------------------------------------------- the five setups

  /** `x` lies at least `gap` beyond `y` in the direction. */
  predicate Past(x: real, y: real, gap: real, d: Direction) { if d == Long then x >= y + gap else x <= y - gap }

  predicate Rising(now: real, before: real, d: Direction) { if d == Long then now > before else now < before }

  predicate Band(x: real, d: Direction, low: real, high: real, shortLow: real, shortHigh: real) {
    if d == Long then low <= x <= high else shortLow <= x <= shortHigh
  }

  /** Three closes against the direction, the last of them back in the zone between the averages, then a recovery candle. */
  ghost predicate Pulled(ctx: Context)
    requires ctx.Valid()
  {
    var d, s, i0, i1 := ctx.direction, ctx.s, ctx.s[0].indicator, ctx.s[1].indicator;
    var c0, c1 := s[0].candle, s[1].candle;
    && i0.atr.Some? && i1.atr.Some? && i0.ema20.Some? && i1.ema20.Some? && i1.ema50.Some? && i0.rsi.Some? && i1.rsi.Some?
    && i0.histogram.Some? && i1.histogram.Some? && i0.volumeRatio.Some? && ctx.e[0].indicator.atr.Some?
    && V(i0.volumeRatio) >= 0.80 && c0.high > c0.low && Place(c0, d) >= 0.65
    && (d == Long ==>
          && s[3].candle.close > s[2].candle.close > c1.close
          && c1.low <= V(i1.ema20) && c1.high >= V(i1.ema50) && c1.close >= V(i1.ema50) - 0.25 * V(i1.atr)
          && c0.close > c0.open && c0.close > V(i0.ema20)
          && 48.0 <= V(i0.rsi) <= 65.0 && V(i0.rsi) > V(i1.rsi) && V(i0.histogram) > V(i1.histogram))
    && (d == Short ==>
          && s[3].candle.close < s[2].candle.close < c1.close
          && c1.high >= V(i1.ema20) && c1.low <= V(i1.ema50) && c1.close <= V(i1.ema50) + 0.25 * V(i1.atr)
          && c0.close < c0.open && c0.close < V(i0.ema20)
          && 35.0 <= V(i0.rsi) <= 52.0 && V(i0.rsi) < V(i1.rsi) && V(i0.histogram) < V(i1.histogram))
  }

  lemma PullbackExactlyWhen(ctx: Context)
    requires ctx.Valid()
    ensures var r := EvaluateTrendPullback(ctx);
      && (r.Ok? <==> Pulled(ctx))
      && (r.Ok? ==>
            && Recorded(r.value, ctx) && r.value.setup == TrendPullback && r.value.reference == ctx.s[0].candle.closeTime
            && r.value.evidence.swing.Some? && IsLowest(ctx.s[..4], r.value.evidence.swing.value.0) && IsHighest(ctx.s[..4], r.value.evidence.swing.value.1))
  {
    Extremes(ctx.s[..4]);
    PlaceIsPosition(ctx.s[0].candle, ctx.direction);
    var i0, i1 := ctx.s[0].indicator, ctx.s[1].indicator;
    var points := if i0.atr.Some? && i1.atr.Some?
                  then PullbackPoints(ctx.s[0].candle, ctx.s[1].candle, V(i1.ema20), V(i1.ema50), V(i0.atr), V(i1.atr), V(i0.rsi), V(i1.rsi), V(i0.histogram), V(i1.histogram), ctx.direction)
                  else 0.0;
    if i0.atr.Some? {
      ConfirmRecords(TrendPullback, ctx, ctx.s[0].candle.closeTime, points, None, None, Some((MinLow(ctx.s[..4]), MaxHigh(ctx.s[..4]))), None, None);
    }
    hide Confirm, PullbackPoints, MaxHigh, MinLow, ClosePosition, Place, IsLowest, IsHighest, Recorded;
  }

  /** A strong candle closing past the level on half as much volume again. */
  ghost predicate Burst(b: Frame, level: real, d: Direction) {
    && b.indicator.atr.Some? && b.indicator.volumeRatio.Some?
    && Past(b.candle.close, level, 0.10 * V(b.indicator.atr), d) && Abs(b.candle.close - b.candle.open) >= 0.50 * V(b.indicator.atr)
    && b.candle.high > b.candle.low && Place(b.candle, d) >= 0.70 && V(b.indicator.volumeRatio) >= 1.50
  }

  /** The candle burst out of the twenty candles before it. */
  ghost predicate BurstOut(ctx: Context, i: nat, level: real)
    requires 1 <= i <= 3 && |ctx.s| >= i + 21
  {
    Burst(ctx.s[i], level, ctx.direction) && if ctx.direction == Long then IsHighest(ctx.s[i + 1..i + 21], level) else IsLowest(ctx.s[i + 1..i + 21], level)
  }

  lemma BurstExactly(b: Frame, level: real, d: Direction)
    ensures b.indicator.atr.Some? ==> (BreakoutConfirmed(b, level, b.indicator.atr.value, d) == Ok(true) <==> Burst(b, level, d))
    ensures Burst(b, level, d) ==> b.indicator.atr.Some? && b.indicator.volumeRatio.Some?
  {
    PlaceIsPosition(b.candle, d);
    hide Place, ClosePosition;
  }

  /** The breakout at candle `i` of a level of the twenty candles before it, retested by the newest candle. */
  ghost predicate Broken(ctx: Context, i: nat, level: real)
    requires ctx.Valid() && 1 <= i <= 3
  {
    var d, b, s0 := ctx.direction, ctx.s[i], ctx.s[0];
    && |ctx.s| >= i + 21 && s0.indicator.atr.Some? && s0.indicator.volumeRatio.Some? && Burst(b, level, d)
    && ctx.e[0].indicator.atr.Some?
    && (if d == Long then IsHighest(ctx.s[i + 1..i + 21], level) else IsLowest(ctx.s[i + 1..i + 21], level))
    && Abs((if d == Long then s0.candle.low else s0.candle.high) - level) <= 0.20 * V(s0.indicator.atr)
    && Past(s0.candle.close, level, 0.05 * V(s0.indicator.atr), d) && V(s0.indicator.volumeRatio) >= 0.80
  }

  lemma OneHighest(frames: seq<Frame>, x: real, y: real)
    requires IsHighest(frames, x) && IsHighest(frames, y)
    ensures x == y
  {
    var i :| 0 <= i < |frames| && frames[i].candle.high == x;
    var j :| 0 <= j < |frames| && frames[j].candle.high == y;
    assert frames[i].candle.high <= y && frames[j].candle.high <= x;
  }

  lemma OneLowest(frames: seq<Frame>, x: real, y: real)
    requires IsLowest(frames, x) && IsLowest(frames, y)
    ensures x == y
  {
    var i :| 0 <= i < |frames| && frames[i].candle.low == x;
    var j :| 0 <= j < |frames| && frames[j].candle.low == y;
    assert y <= frames[i].candle.low && x <= frames[j].candle.low;
  }

  lemma BreakoutExactlyWhen(ctx: Context, i: nat)
    requires ctx.Valid() && 1 <= i <= 3
    ensures var r := TryBreakout(ctx, i);
      && (r.Ok? && r.value.Found? ==>
            var m := r.value.match_;
            && m.setup == BreakoutRetest && Recorded(m, ctx) && m.reference == ctx.s[i].candle.closeTime
            && m.level.Some? && Broken(ctx, i, m.level.value) && m.evidence.breakoutAt == Some(ctx.s[i].candle.closeTime))
      && (forall level :: Broken(ctx, i, level) ==> r.Ok? && r.value.Found? && r.value.match_.level == Some(level))
      && (r.Ok? && r.value.Skip? ==> (r.value.breakout <==> |ctx.s| >= i + 21 && exists level :: BurstOut(ctx, i, level)))
  {
    if |ctx.s| >= i + 21 {
      var d, b, s0, history := ctx.direction, ctx.s[i], ctx.s[0], ctx.s[i + 1..i + 21];
      Extremes(history);
      forall x | IsHighest(history, x) ensures x == MaxHigh(history) { OneHighest(history, x, MaxHigh(history)); }
      forall x | IsLowest(history, x) ensures x == MinLow(history) { OneLowest(history, x, MinLow(history)); }
      var level := BreakoutLevel(history, d);
      BurstExactly(b, level, d);
      assert Burst(b, level, d) ==> BurstOut(ctx, i, level);
      if b.indicator.atr.Some? && s0.indicator.atr.Some? && b.indicator.volumeRatio.Some? {
        var points := RetestPoints(s0.candle, b.candle, level, s0.indicator.atr.value, b.indicator.atr.value, b.indicator.volumeRatio.value, d);
        ConfirmRecords(BreakoutRetest, ctx, b.candle.closeTime, points, Some(level), None, None, None, Some(b.candle.closeTime));
      }
      hide Confirm, RetestPoints, MaxHigh, MinLow, IsLowest, IsHighest, Recorded, Burst, BreakoutConfirmed;
    }
  }

  /** The search takes the youngest of the three candles whose breakout holds, provided no younger one ends it with an error. */
  lemma {:induction false} SearchTakesTheFirst(ctx: Context, i: nat, seen: bool)
    requires ctx.Valid() && 1 <= i <= 4
    ensures var r := SearchBreakout(ctx, i, seen);
      r.Ok? <==> exists j :: i <= j <= 3 && Takes(ctx, i, j)
    ensures var r := SearchBreakout(ctx, i, seen);
      forall j :: i <= j <= 3 && Takes(ctx, i, j) ==> r == Ok(TryBreakout(ctx, j).value.match_)
    decreases 4 - i
  {
    hide TryBreakout;
    if i < 4 {
      var attempt := TryBreakout(ctx, i);
      if attempt.Ok? && attempt.value.Skip? {
        SearchTakesTheFirst(ctx, i + 1, seen || attempt.value.breakout);
        forall j | i < j <= 3 ensures Takes(ctx, i, j) <==> Takes(ctx, i + 1, j) {
          assert Passed(ctx, i);
        }
        assert !Takes(ctx, i, i);
        var next := i + 1;
        if j :| next <= j <= 3 && Takes(ctx, next, j) { assert Takes(ctx, i, j); }
        if j :| i <= j <= 3 && Takes(ctx, i, j) { assert Takes(ctx, i + 1, j); }
      } else {
        assert !Passed(ctx, i);
        forall j | i < j <= 3 ensures !Takes(ctx, i, j) {}
        if attempt.Ok? { assert Takes(ctx, i, i); }
      }
    }
  }

  predicate Passed(ctx: Context, k: nat)
    requires ctx.Valid() && 1 <= k <= 3
  {
    TryBreakout(ctx, k).Ok? && TryBreakout(ctx, k).value.Skip?
  }

  /** Candle `k` broke out but was not retested. */
  predicate PassedOver(ctx: Context, k: nat)
    requires ctx.Valid() && 1 <= k <= 3
  {
    Passed(ctx, k) && TryBreakout(ctx, k).value.breakout
  }

  /** A search that finds nothing names the missing retest exactly when one of the three candles broke out. */
  lemma SearchFailsAs(ctx: Context)
    requires ctx.Valid() && Passed(ctx, 1) && Passed(ctx, 2) && Passed(ctx, 3)
    ensures EvaluateBreakoutRetest(ctx) ==
            Err(if PassedOver(ctx, 1) || PassedOver(ctx, 2) || PassedOver(ctx, 3) then RetestNotConfirmed else BreakoutNotConfirmed)
  {
    hide TryBreakout;
    var one, two, three := PassedOver(ctx, 1), PassedOver(ctx, 2), PassedOver(ctx, 3);
    assert SearchBreakout(ctx, 1, false) == SearchBreakout(ctx, 2, one);
    assert SearchBreakout(ctx, 2, one) == SearchBreakout(ctx, 3, one || two);
    assert SearchBreakout(ctx, 3, one || two) == SearchBreakout(ctx, 4, one || two || three);
  }

  /** Candle `j` is the one taken by a search that starts at candle `i`. */
  predicate Takes(ctx: Context, i: nat, j: nat)
    requires ctx.Valid() && 1 <= i <= j <= 3
  {
    && TryBreakout(ctx, j).Ok? && TryBreakout(ctx, j).value.Found?
    && forall k: nat :: i <= k < j ==> Passed(ctx, k)
  }

  /** A candle with a body, a wick of half as much again on its losing end and a close at its far end. */
  ghost predicate Hammer(c: Candle, d: Direction) {
    && Abs(c.close - c.open) > 0.0 && c.high > c.low && Place(c, d) >= 0.70
    && (if d == Long then Min(c.open, c.close) - c.low else c.high - Max(c.open, c.close)) / Abs(c.close - c.open) >= 1.50
  }

  /** Of the two averages within a fifth of an ATR of the candle's losing end, the nearer; the faster one on a tie. */
  ghost predicate Nearest(s0: Frame, d: Direction, selected: real) {
    var i, extreme := s0.indicator, if d == Long then s0.candle.low else s0.candle.high;
    var near20, near50 := Abs(extreme - V(i.ema20)), Abs(extreme - V(i.ema50));
    && (selected == V(i.ema20) || selected == V(i.ema50)) && Abs(extreme - selected) <= 0.20 * V(i.atr)
    && (near20 <= 0.20 * V(i.atr) && near20 <= near50 ==> selected == V(i.ema20))
    && (near50 <= 0.20 * V(i.atr) && near50 < near20 ==> selected == V(i.ema50))
  }

  /** A rejection candle at the selected average. */
  ghost predicate RejectedAt(ctx: Context, selected: real)
    requires ctx.Valid()
  {
    var d, c, i, before := ctx.direction, ctx.s[0].candle, ctx.s[0].indicator, ctx.s[1].indicator;
    && i.atr.Some? && i.ema20.Some? && i.ema50.Some? && i.rsi.Some? && i.histogram.Some? && before.histogram.Some? && i.volumeRatio.Some?
    && ctx.e[0].indicator.atr.Some?
    && Nearest(ctx.s[0], d, selected) && Hammer(c, d) && Abs(c.close - c.open) >= 0.10 * V(i.atr)
    && Past(c.close, selected, 0.05 * V(i.atr), d) && Band(V(i.rsi), d, 45.0, 65.0, 35.0, 55.0)
    && (if d == Long then V(i.histogram) >= V(before.histogram) else V(i.histogram) <= V(before.histogram))
    && V(i.volumeRatio) >= 1.0
  }

  lemma HammerExactly(c: Candle, d: Direction)
    ensures Hammer(c, d) <==> Body(c) > 0.0 && ClosePosition(c, d).Ok? && ClosePosition(c, d).value >= 0.70 && Ratio(Wick(c, d), Body(c)) >= 1.50
    ensures ClosePosition(c, d).Ok? <==> c.high > c.low
    ensures Body(c) == Abs(c.close - c.open)
  {
    PlaceIsPosition(c, d);
  }

  lemma SelectedExactly(s0: Frame, d: Direction)
    requires s0.Valid() && s0.indicator.atr.Some? && s0.indicator.ema20.Some? && s0.indicator.ema50.Some?
    ensures var r := SelectedEma(s0, d);
      && (r.Ok? ==> Nearest(s0, d, r.value))
      && (forall x :: Nearest(s0, d, x) ==> r == Ok(x))
  {
  }

  lemma RejectionExactlyWhen(ctx: Context)
    requires ctx.Valid()
    ensures var r := EvaluateEmaRejection(ctx);
      && (r.Ok? ==>
            && Recorded(r.value, ctx) && r.value.setup == EmaRejection && r.value.reference == ctx.s[0].candle.closeTime
            && r.value.selectedEma.Some? && RejectedAt(ctx, r.value.selectedEma.value))
      && (forall selected :: RejectedAt(ctx, selected) ==> r.Ok? && r.value.selectedEma == Some(selected))
  {
    hide Confirm, RejectionPoints, SelectedEma, ClosePosition, Place, Recorded, Hammer, Nearest, Body, Wick, Ratio;
    var d, s0 := ctx.direction, ctx.s[0];
    var c, i := s0.candle, s0.indicator;
    HammerExactly(c, d);
    if i.atr.Some? && i.ema20.Some? && i.ema50.Some? {
      SelectedExactly(s0, d);
      var selected := SelectedEma(s0, d);
      if selected.Ok? && Body(c) > 0.0 && i.volumeRatio.Some? && c.high > c.low {
        var points := RejectionPoints(c, selected.value, i.atr.value, ClosePosition(c, d).value, i.volumeRatio.value, d);
        ConfirmRecords(EmaRejection, ctx, c.closeTime, points, None, Some(selected.value), None, None, None);
      }
    } else {
      SelectionNeedsAverages(s0, d);
    }
  }

  lemma SelectionNeedsAverages(s0: Frame, d: Direction)
    ensures SelectedEma(s0, d).Ok? ==> s0.indicator.atr.Some? && s0.indicator.ema20.Some? && s0.indicator.ema50.Some?
  {
  }

  /** Up to ten candles before the newest. */
  function Window(s: seq<Frame>): seq<Frame>
    requires |s| >= 1
  {
    s[1..if |s| < 11 then |s| else 11]
  }

  /** The newest candle pierced the extreme of up to ten candles before it and closed back on the other side. */
  ghost predicate Swept(ctx: Context, level: real)
    requires ctx.Valid()
  {
    var d, c, i, before := ctx.direction, ctx.s[0].candle, ctx.s[0].indicator, ctx.s[1].indicator;
    var history := Window(ctx.s);
    && i.atr.Some? && i.rsi.Some? && before.rsi.Some? && i.histogram.Some? && before.histogram.Some? && i.volumeRatio.Some?
    && ctx.e[0].indicator.atr.Some?
    && (if d == Long then IsLowest(history, level) && c.low <= level - 0.05 * V(i.atr) else IsHighest(history, level) && c.high >= level + 0.05 * V(i.atr))
    && Past(c.close, level, 0.05 * V(i.atr), d) && Hammer(c, d)
    && Band(V(i.rsi), d, 35.0, 55.0, 45.0, 65.0) && Rising(V(i.rsi), V(before.rsi), d) && Rising(V(i.histogram), V(before.histogram), d)
    && V(i.volumeRatio) >= 1.20
  }

  lemma SweepLevelExactly(ctx: Context)
    requires ctx.Valid()
    ensures ctx.direction == Long ==> IsLowest(Window(ctx.s), SweepLevel(ctx)) && forall x :: IsLowest(Window(ctx.s), x) ==> x == SweepLevel(ctx)
    ensures ctx.direction == Short ==> IsHighest(Window(ctx.s), SweepLevel(ctx)) && forall x :: IsHighest(Window(ctx.s), x) ==> x == SweepLevel(ctx)
  {
    var history := SweepHistory(ctx.s);
    assert history == Window(ctx.s);
    Extremes(history);
    hide IsLowest, IsHighest, MaxHigh, MinLow;
    forall x | IsLowest(history, x) ensures x == MinLow(history) { OneLowest(history, x, MinLow(history)); }
    forall x | IsHighest(history, x) ensures x == MaxHigh(history) { OneHighest(history, x, MaxHigh(history)); }
  }

  lemma SweepExactlyWhen(ctx: Context)
    requires ctx.Valid()
    ensures var r := EvaluateLiquiditySweep(ctx);
      && (r.Ok? ==>
            && Recorded(r.value, ctx) && r.value.setup == LiquiditySweepReversal && r.value.reference == ctx.s[0].candle.closeTime
            && r.value.level.Some? && Swept(ctx, r.value.level.value))
      && (forall level :: Swept(ctx, level) ==> r.Ok? && r.value.level == Some(level))
  {
    hide Confirm, SweepPoints, SweepLevel, ClosePosition, Place, Recorded, Hammer, Body, Wick, Ratio, IsLowest, IsHighest;
    var d, s0 := ctx.direction, ctx.s[0];
    var c, i := s0.candle, s0.indicator;
    HammerExactly(c, d);
    SweepLevelExactly(ctx);
    if i.atr.Some? && i.volumeRatio.Some? && Body(c) > 0.0 {
      var points := SweepPoints(c, SweepLevel(ctx), i.atr.value, i.volumeRatio.value, d);
      ConfirmRecords(LiquiditySweepReversal, ctx, c.closeTime, points, Some(SweepLevel(ctx)), None, None, None, None);
    }
  }

  /** A narrow candle on the right side of both averages. */
  ghost predicate Narrow(f: Frame, d: Direction) {
    var i := f.indicator;
    && i.atr.Some? && i.ema20.Some? && i.ema50.Some? && f.candle.high - f.candle.low <= 0.90 * V(i.atr)
    && (if d == Long then f.candle.close > V(i.ema20) && V(i.ema20) > V(i.ema50) else f.candle.close < V(i.ema20) && V(i.ema20) < V(i.ema50))
  }

  /** Three narrow quiet candles, then a strong candle out of their range. */
  ghost predicate Continued(ctx: Context, high: real, low: real)
    requires ctx.Valid()
  {
    var d, s, c, i, before := ctx.direction, ctx.s, ctx.s[0].candle, ctx.s[0].indicator, ctx.s[1].indicator;
    var boundary := if d == Long then high else low;
    && IsHighest(s[1..4], high) && IsLowest(s[1..4], low)
    && Narrow(s[1], d) && Narrow(s[2], d) && Narrow(s[3], d)
    && i.atr.Some? && i.rsi.Some? && i.histogram.Some? && before.histogram.Some? && i.volumeRatio.Some?
    && s[1].indicator.volumeRatio.Some? && s[2].indicator.volumeRatio.Some? && s[3].indicator.volumeRatio.Some?
    && ctx.e[0].indicator.atr.Some?
    && high - low <= 1.50 * V(i.atr)
    && V(s[1].indicator.volumeRatio) + V(s[2].indicator.volumeRatio) + V(s[3].indicator.volumeRatio) <= 3.30
    && Past(c.close, boundary, 0.05 * V(i.atr), d) && Abs(c.close - c.open) >= 0.40 * V(i.atr)
    && c.high > c.low && Place(c, d) >= 0.70 && Band(V(i.rsi), d, 55.0, 70.0, 30.0, 45.0)
    && (if d == Long then V(i.histogram) > 0.0 && V(i.histogram) >= V(before.histogram) else V(i.histogram) < 0.0 && V(i.histogram) <= V(before.histogram))
    && V(i.volumeRatio) >= 1.20
  }

  lemma NarrowExactly(f: Frame, d: Direction)
    ensures CompressedFrame(f, d) == Ok(true) <==> Narrow(f, d)
  {
  }

  lemma ThreeNarrow(ctx: Context)
    requires ctx.Valid()
    ensures AllCompressed(ctx.s[1..4], ctx.direction) == Ok(true) <==> Narrow(ctx.s[1], ctx.direction) && Narrow(ctx.s[2], ctx.direction) && Narrow(ctx.s[3], ctx.direction)
  {
    var d, three := ctx.direction, ctx.s[1..4];
    assert three[1..][1..] == three[2..] && three[2..][1..] == [];
    assert AllCompressed([], d) == Ok(true);
    NarrowExactly(ctx.s[1], d);
    NarrowExactly(ctx.s[2], d);
    NarrowExactly(ctx.s[3], d);
    hide CompressedFrame, Narrow;
    assert AllCompressed(three[2..], d) == Ok(true) <==> CompressedFrame(three[2], d) == Ok(true);
    assert AllCompressed(three[1..], d) == Ok(true) <==> CompressedFrame(three[1], d) == Ok(true) && AllCompressed(three[2..], d) == Ok(true);
  }

  lemma ContinuationExactlyWhen(ctx: Context)
    requires ctx.Valid()
    ensures var r := EvaluateContinuation(ctx);
      && (r.Ok? ==>
            && Recorded(r.value, ctx) && r.value.setup == ContinuationSetup && r.value.reference == ctx.s[0].candle.closeTime
            && r.value.evidence.compression.Some?
            && var (high, low) := r.value.evidence.compression.value;
            && Continued(ctx, high, low) && r.value.level == Some(if ctx.direction == Long then high else low))
      && (forall high, low :: Continued(ctx, high, low) ==> r.Ok? && r.value.evidence.compression == Some((high, low)))
  {
    hide Confirm, ContinuationPoints, AllCompressed, MaxHigh, MinLow, ClosePosition, Place, Recorded, IsLowest, IsHighest, Narrow;
    var d, s0, three := ctx.direction, ctx.s[0], ctx.s[1..4];
    var c, i := s0.candle, s0.indicator;
    Extremes(three);
    ThreeNarrow(ctx);
    PlaceIsPosition(c, d);
    var high, low := MaxHigh(three), MinLow(three);
    forall x | IsHighest(three, x) ensures x == high { OneHighest(three, x, high); }
    forall x | IsLowest(three, x) ensures x == low { OneLowest(three, x, low); }
    if i.atr.Some? && i.volumeRatio.Some? {
      var boundary := Boundary(high, low, d);
      var points := ContinuationPoints(c, high - low, boundary, i.atr.value, i.volumeRatio.value, d);
      ConfirmRecords(ContinuationSetup, ctx, c.closeTime, points, Some(boundary), None, None, Some((high, low)), None);
    }
  }

  // ---------------------------------------------------------------- from scan to verdict

  lemma {:induction false} JudgedMatches(ctx: Context, matches: seq<Match>, now: int)
    requires ctx.Valid()
    ensures var r := JudgeAll(ctx, matches, now);
      r.Ok? ==> |r.value| == |matches| && forall i :: 0 <= i < |matches| ==> Judge(ctx, matches[i], now) == Ok(r.value[i])
  {
    hide Judge;
    if matches != [] { JudgedMatches(ctx, matches[..|matches| - 1], now); }
  }

  lemma {:induction false} AcceptedFrom(ctx: Context, setups: seq<Setup>, m: Match)
    requires ctx.Valid() && m in Accepted(ctx, setups)
    ensures exists setup :: setup in setups && Evaluate(setup, ctx) == Ok(m)
  {
    hide Evaluate;
    var init, last := setups[..|setups| - 1], setups[|setups| - 1];
    if Evaluate(last, ctx) != Ok(m) {
      AcceptedFrom(ctx, init, m);
      var setup :| setup in init && Evaluate(setup, ctx) == Ok(m);
      assert setup in setups;
    }
  }

  /** The verdict is of a match that its setup's evaluator accepted, and is how that match was judged. */
  ghost predicate JudgedFrom(ctx: Context, v: Verdict, now: int)
    requires ctx.Valid()
  {
    Judge(ctx, v.match_, now) == Ok(v) && exists setup :: setup in SetupOrder && Evaluate(setup, ctx) == Ok(v.match_)
  }

  lemma DecidedFrom(ctx: Context, now: int)
    requires ctx.Valid()
    ensures var r := Decide(ctx, now); r.Ok? && r.value.Some? ==> JudgedFrom(ctx, r.value.value, now)
  {
    hide Judge, Evaluate, Best, SetupOrder;
    var matches := Accepted(ctx, SetupOrder);
    JudgedMatches(ctx, matches, now);
    var r := Decide(ctx, now);
    if r.Ok? && r.value.Some? {
      var verdicts := JudgeAll(ctx, matches, now).value;
      BestIsFirst(verdicts);
      var i :| 0 <= i < |verdicts| && verdicts[i] == r.value.value;
      VerdictKeepsMatch(ctx, matches[i], now);
      AcceptedFrom(ctx, SetupOrder, matches[i]);
    }
  }

  lemma VerdictKeepsMatch(ctx: Context, m: Match, now: int)
    requires ctx.Valid()
    ensures Judge(ctx, m, now).Ok? ==> Judge(ctx, m, now).value.match_ == m
  {
    hide SharedEntry, ScoreOf, LifecycleOf;
  }

  /** What a scan that selects a verdict has found, in fields: the hourly trend of its direction, both gates passed, a match
      whose setup holds and whose trigger is recorded as above, and the entry rule exactly as the verdict says; a QUALIFIED
      verdict has its newest 5-minute close strictly beyond its trigger. */
  lemma SelectedVerdictHolds(market: Context, structure: Structure, now: int)
    requires market.Valid()
    ensures var r := ScanSymbol(market, structure, now);
      r.Ok? && r.value.1.Some? ==>
        var (d, v) := (r.value.0, r.value.1.value); var ctx, m := market.(direction := d), v.match_;
        && Readable(market.h[0].indicator) && Trending(market.h[0].indicator)
        && (if d == Long then structure == Bullish && Uptrend(market.h) else structure == Bearish && Downtrend(market.h))
        && Lively(market.s[0], 0.0015, 0.025) && Lively(market.e[0], 0.0005, 0.015)
        && Recorded(m, ctx) && Holds(m, ctx)
        && (v.entryReady <==> m.confirmedAt < market.e[0].candle.closeTime && now < m.expiresAt && Entered(market.e, d, m.trigger))
        && (v.lifecycle == Qualified ==> v.entryReady && if d == Long then market.e[0].candle.close > m.trigger else market.e[0].candle.close < m.trigger)
  {
    hide Regime, Gates, Decide, Judge, Evaluate, Readable, Trending, Uptrend, Downtrend, Lively, Recorded, Holds, Entered;
    RegimeExactlyWhen(market.h, structure);
    GatesExactlyWhen(market.s[0], market.e[0]);
    var r := ScanSymbol(market, structure, now);
    if r.Ok? && r.value.1.Some? {
      var ctx, v := market.(direction := r.value.0), r.value.1.value;
      var regime := Regime(market.h, structure);
      match regime.value { case Long => case Short => }
      DecidedFrom(ctx, now);
      ReadyExactlyWhen(ctx, v.match_, now);
      var setup :| setup in SetupOrder && Evaluate(setup, ctx) == Ok(v.match_);
      AcceptedHolds(ctx, setup);
    }
  }

  /** The setup of the match holds of the context. */
  ghost predicate Holds(m: Match, ctx: Context)
    requires ctx.Valid()
  {
    match m.setup
    case TrendPullback => Pulled(ctx)
    case BreakoutRetest => m.level.Some? && exists i: nat :: 1 <= i <= 3 && Broken(ctx, i, m.level.value) && m.reference == ctx.s[i].candle.closeTime
    case EmaRejection => m.selectedEma.Some? && RejectedAt(ctx, m.selectedEma.value)
    case LiquiditySweepReversal => m.level.Some? && Swept(ctx, m.level.value)
    case ContinuationSetup =>
      m.evidence.compression.Some? && Continued(ctx, m.evidence.compression.value.0, m.evidence.compression.value.1)
  }

  lemma AcceptedHolds(ctx: Context, setup: Setup)
    requires ctx.Valid()
    ensures var r := Evaluate(setup, ctx); r.Ok? ==> r.value.setup == setup && Recorded(r.value, ctx) && Holds(r.value, ctx)
  {
    hide EvaluateTrendPullback, SearchBreakout, EvaluateEmaRejection, EvaluateLiquiditySweep, EvaluateContinuation, TryBreakout,
      Recorded, Pulled, Broken, RejectedAt, Swept, Continued, IsLowest, IsHighest;
    match setup
    case TrendPullback => PullbackExactlyWhen(ctx);
    case BreakoutRetest =>
      SearchTakesTheFirst(ctx, 1, false);
      if SearchBreakout(ctx, 1, false).Ok? {
        var j :| 1 <= j <= 3 && Takes(ctx, 1, j);
        BreakoutExactlyWhen(ctx, j);
      }
    case EmaRejection => RejectionExactlyWhen(ctx);
    case LiquiditySweepReversal => SweepExactlyWhen(ctx);
    case ContinuationSetup => ContinuationExactlyWhen(ctx);
  }

  // ---------------------------------------------------------------- the choice among verdicts

  /** Initial of the setup's name; no two setups share one. */
  function Initial(setup: Setup): char {
    match setup
    case BreakoutRetest => 'B'
    case ContinuationSetup => 'C'
    case EmaRejection => 'E'
    case LiquiditySweepReversal => 'L'
    case TrendPullback => 'T'
  }

  /** `a` stands before `b`: by lifecycle, then the higher score, the higher confidence, the setup's name and the earlier
      reference candle. */
  predicate Better(a: Verdict, b: Verdict) {
    if a.lifecycle != b.lifecycle then a.lifecycle == Qualified || b.lifecycle == Lifecycle.Rejected
    else if a.score.score != b.score.score then a.score.score > b.score.score
    else if a.score.confidence != b.score.confidence then a.score.confidence > b.score.confidence
    else if a.match_.setup != b.match_.setup then Initial(a.match_.setup) < Initial(b.match_.setup)
    else a.match_.reference < b.match_.reference
  }

  /** The selected verdict is one of them, and none of them is better. */
  lemma NoneIsBetter(verdicts: seq<Verdict>)
    requires verdicts != []
    ensures Best(verdicts) in verdicts && forall v :: v in verdicts ==> !Better(v, Best(verdicts))
  {
    BestIsFirst(verdicts);
    forall v | v in verdicts ensures !Better(v, Best(verdicts)) { BetterPrecedes(v, Best(verdicts)); }
  }

  lemma BetterPrecedes(a: Verdict, b: Verdict)
    ensures Better(a, b) <==> Precedes(a, b)
  {
  }

  // ---------------------------------------------------------------- invalidation and the published stop

  /** The losing extreme remembered with the setup, or the one stored in its place, or else the newest candle's. */
  function Remembered(c: Candidate, s0: Frame): real {
    if c.direction == Long then
      if c.evidence.referenceLow.Some? then c.evidence.referenceLow.value
      else if c.evidence.referenceExtreme.Some? then c.evidence.referenceExtreme.value else s0.candle.low
    else
      if c.evidence.referenceHigh.Some? then c.evidence.referenceHigh.value
      else if c.evidence.referenceExtreme.Some? then c.evidence.referenceExtreme.value else s0.candle.high
  }

  /** `price` closed past `level` against the direction by more than `slack`. */
  predicate Lost(price: real, level: real, slack: real, d: Direction) { if d == Long then price < level - slack else price > level + slack }

  predicate Broke(c: Candidate, s0: Frame, e0: Frame) {
    var d, quarter, five := c.direction, V(s0.indicator.atr), V(e0.indicator.atr);
    match c.setup
    case TrendPullback =>
      || Lost(s0.candle.close, V(s0.indicator.ema50), 0.25 * quarter, d)
      || Lost(e0.candle.close, if d == Long then c.evidence.swingLow else c.evidence.swingHigh, 0.10 * five, d)
    case BreakoutRetest => c.level.Some? && Lost(s0.candle.close, c.level.value, 0.15 * quarter, d)
    case EmaRejection =>
      c.selectedEma.Some? && (Lost(s0.candle.close, c.selectedEma.value, 0.20 * quarter, d) || Lost(s0.candle.close, Remembered(c, s0), 0.05 * quarter, d))
    case LiquiditySweepReversal => Lost(e0.candle.close, Remembered(c, s0), 0.05 * five, d)
    case ContinuationSetup => c.level.Some? && Lost(s0.candle.close, c.level.value, 0.15 * quarter, d)
  }

  /** A stored setup is judged when both ATRs, and for a pullback the slower average, are there; it is invalidated exactly when
      it broke. */
  lemma InvalidatedExactlyWhen(c: Candidate, s0: Frame, e0: Frame)
    ensures Invalidated(c, s0, e0).Ok? <==>
      s0.indicator.atr.Some? && e0.indicator.atr.Some? && (c.setup == TrendPullback ==> s0.indicator.ema50.Some?)
    ensures Invalidated(c, s0, e0).Ok? ==> (Invalidated(c, s0, e0).value <==> Broke(c, s0, e0))
  {
  }

  /** What the stop is made of is stored with the setup. */
  predicate HasStop(c: Candidate) {
    match c.setup
    case TrendPullback => true
    case BreakoutRetest => c.level.Some?
    case EmaRejection => c.selectedEma.Some? && c.evidence.referenceLow.Some? && c.evidence.referenceHigh.Some?
    case LiquiditySweepReversal => c.evidence.referenceLow.Some? && c.evidence.referenceHigh.Some?
    case ContinuationSetup => c.level.Some?
  }

  /** The price at which the rule above starts to hold; of two rules the one price meets first. */
  function StopAt(c: Candidate, s0: Frame, e0: Frame): real {
    var long, quarter, five := c.direction == Long, V(s0.indicator.atr), V(e0.indicator.atr);
    match c.setup
    case TrendPullback =>
      if long then Max(V(s0.indicator.ema50) - 0.25 * quarter, c.evidence.swingLow - 0.10 * five)
      else Min(V(s0.indicator.ema50) + 0.25 * quarter, c.evidence.swingHigh + 0.10 * five)
    case BreakoutRetest => if long then V(c.level) - 0.15 * quarter else V(c.level) + 0.15 * quarter
    case EmaRejection =>
      if long then Max(V(c.selectedEma) - 0.20 * quarter, V(c.evidence.referenceLow) - 0.05 * quarter)
      else Min(V(c.selectedEma) + 0.20 * quarter, V(c.evidence.referenceHigh) + 0.05 * quarter)
    case LiquiditySweepReversal => if long then V(c.evidence.referenceLow) - 0.05 * five else V(c.evidence.referenceHigh) + 0.05 * five
    case ContinuationSetup => if long then V(c.level) - 0.15 * quarter else V(c.level) + 0.15 * quarter
  }

  /** A stop is published exactly when it can be made, is a positive price and lies on the losing side of the trigger. */
  lemma StopPublishedExactlyWhen(c: Candidate, trigger: real, s0: Frame, e0: Frame)
    ensures var r := RiskStopPrice(c, trigger, s0, e0); var stop := StopAt(c, s0, e0);
      && (r.Ok? <==> s0.indicator.atr.Some? && e0.indicator.atr.Some? && (c.setup == TrendPullback ==> s0.indicator.ema50.Some?))
      && (r.Ok? ==> r.value == if HasStop(c) && stop > 0.0 && (if c.direction == Long then stop < trigger else trigger < stop) then Some(stop) else None)
  {
  }
}
