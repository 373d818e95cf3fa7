/** SHORT is LONG on a reflected price axis. Reflecting every price p to K - p, every RSI r to 100 - r and the
    MACD family to its negation turns each strategy decision into the same decision for the opposite direction:
    same acceptance, same error code, reflected prices, identical points, score, confidence and grade. The volatility gates
    and the published stop measure prices from zero; for them the exact condition is stated. */
module StrategySymmetry {
  import opened Trading
  import opened Strategy

  // ---------------------------------------------------------------- the reflection

  function MirrorPrice(price: Option<real>, k: real): Option<real> {
    if price.None? then None else Some(k - price.value)
  }

  function MirrorCandle(c: Candle, k: real): Candle {
    Candle(k - c.open, k - c.low, k - c.high, k - c.close, c.closeTime)
  }

  function MirrorIndicator(i: Indicator, k: real): Indicator {
    Indicator(MirrorPrice(i.ema20, k), MirrorPrice(i.ema50, k), MirrorPrice(i.ema200, k), MirrorPrice(i.rsi, 100.0),
              MirrorPrice(i.macd, 0.0), MirrorPrice(i.signal, 0.0), MirrorPrice(i.histogram, 0.0), i.atr, i.volumeRatio)
  }

  function MirrorFrame(f: Frame, k: real): Frame {
    Frame(MirrorCandle(f.candle, k), MirrorIndicator(f.indicator, k))
  }

  function MirrorFrames(frames: seq<Frame>, k: real): (r: seq<Frame>)
    ensures |r| == |frames|
    ensures forall i :: 0 <= i < |frames| ==> r[i] == MirrorFrame(frames[i], k)
  {
    if frames == [] then [] else [MirrorFrame(frames[0], k)] + MirrorFrames(frames[1..], k)
  }

  function MirrorStructure(s: Structure): Structure {
    match s
    case Bullish => Bearish
    case Bearish => Bullish
    case other => other
  }

  function MirrorContext(ctx: Context, k: real): (r: Context)
    ensures ctx.Valid() ==> r.Valid()
  {
    ctx.(direction := ctx.direction.Opposite(),
         h := MirrorFrames(ctx.h, k), s := MirrorFrames(ctx.s, k), e := MirrorFrames(ctx.e, k))
  }

  /** A band of prices: (low, high) or (high, low) reflects onto itself with the ends exchanged. */
  function MirrorBand(band: Option<(real, real)>, k: real): Option<(real, real)> {
    if band.None? then None else Some((k - band.value.1, k - band.value.0))
  }

  function MirrorMatch(m: Match, k: real): Match {
    m.(level := MirrorPrice(m.level, k), selectedEma := MirrorPrice(m.selectedEma, k), trigger := k - m.trigger,
       evidence := m.evidence.(
         swing := MirrorBand(m.evidence.swing, k), compression := MirrorBand(m.evidence.compression, k),
         referenceHigh := k - m.evidence.referenceLow, referenceLow := k - m.evidence.referenceHigh))
  }

  function MirrorOutcome(r: Result<Match, Code>, k: real): Result<Match, Code> {
    if r.Err? then r else Ok(MirrorMatch(r.value, k))
  }

  function MirrorValue(r: Result<real, Code>, k: real): Result<real, Code> {
    if r.Err? then r else Ok(k - r.value)
  }

  function MirrorDirection(r: Result<Direction, Code>): Result<Direction, Code> {
    if r.Err? then r else Ok(r.value.Opposite())
  }

  function MirrorMatches(ms: seq<Match>, k: real): seq<Match> {
    if ms == [] then [] else MirrorMatches(ms[..|ms| - 1], k) + [MirrorMatch(ms[|ms| - 1], k)]
  }

  function MirrorCandidate(c: Candidate, k: real): Candidate {
    Candidate(c.direction.Opposite(), c.setup, MirrorPrice(c.level, k), MirrorPrice(c.selectedEma, k),
              StoredEvidence(k - c.evidence.swingHigh, k - c.evidence.swingLow,
                             MirrorPrice(c.evidence.referenceHigh, k), MirrorPrice(c.evidence.referenceLow, k),
                             MirrorPrice(c.evidence.referenceExtreme, k)))
  }

  // ---------------------------------------------------------------- one-candle helpers

  lemma MirrorSlice(frames: seq<Frame>, from: nat, to: nat, k: real)
    requires from <= to <= |frames|
    ensures MirrorFrames(frames, k)[from..to] == MirrorFrames(frames[from..to], k)
  {
  }

  lemma {:induction false} ExtremesReflect(frames: seq<Frame>, k: real)
    requires frames != []
    ensures MaxHigh(MirrorFrames(frames, k)) == k - MinLow(frames)
    ensures MinLow(MirrorFrames(frames, k)) == k - MaxHigh(frames)
  {
    if |frames| > 1 {
      ExtremesReflect(frames[1..], k);
      MirrorSlice(frames, 1, |frames|, k);
    }
  }

  /** Every directional measure of one candle is unchanged. */
  lemma CandleReflects(c: Candle, d: Direction, k: real)
    ensures Body(MirrorCandle(c, k)) == Body(c) && Spread(MirrorCandle(c, k)) == Spread(c)
    ensures Wick(MirrorCandle(c, k), d.Opposite()) == Wick(c, d)
    ensures Extreme(MirrorCandle(c, k), d.Opposite()) == k - Extreme(c, d)
    ensures PreviousBreakLevel(MirrorCandle(c, k), d.Opposite()) == k - PreviousBreakLevel(c, d)
    ensures ClosePosition(MirrorCandle(c, k), d.Opposite()) == ClosePosition(c, d)
  {
  }

  lemma DepthReflects(c: Candle, level: real, d: Direction, k: real)
    ensures SweepDepth(MirrorCandle(c, k), k - level, d.Opposite()) == SweepDepth(c, level, d)
    ensures Margin(k - c.close, k - level, d.Opposite()) == Margin(c.close, level, d)
    ensures Abs(Extreme(MirrorCandle(c, k), d.Opposite()) - (k - level)) == Abs(Extreme(c, d) - level)
  {
  }

  lemma MarginReflects(x: real, y: real, d: Direction, k: real)
    ensures Margin(k - x, k - y, d.Opposite()) == Margin(x, y, d)
  {
  }

  lemma HistogramReflects(x: real, y: real, d: Direction)
    ensures Margin(0.0 - x, 0.0 - y, d.Opposite()) == Margin(x, y, d)
    ensures DirectedHistogram(0.0 - x, d.Opposite()) == DirectedHistogram(x, d)
  {
  }

  // ---------------------------------------------------------------- gates

  lemma StackReflects(close: real, ema20: real, ema50: real, ema200: real, older: Indicator, d: Direction, k: real)
    ensures Stacked(k - close, k - ema20, k - ema50, k - ema200, MirrorIndicator(older, k), d.Opposite())
            == Stacked(close, ema20, ema50, ema200, older, d)
  {
  }

  lemma RegimeReflects(h: seq<Frame>, structure: Structure, k: real)
    requires |h| >= 4
    ensures Regime(MirrorFrames(h, k), MirrorStructure(structure)) == MirrorDirection(Regime(h, structure))
  {
    hide Stacked, MirrorFrames;
    var i0 := h[0].indicator;
    if i0.ema20.Some? && i0.ema50.Some? && i0.ema200.Some? {
      StackReflects(h[0].candle.close, i0.ema20.value, i0.ema50.value, i0.ema200.value, h[3].indicator, Long, k);
      StackReflects(h[0].candle.close, i0.ema20.value, i0.ema50.value, i0.ema200.value, h[3].indicator, Short, k);
      StackExclusive(h[0].candle.close, i0.ema20.value, i0.ema50.value, i0.ema200.value, h[3].indicator);
    }
    assert MirrorFrames(h, k)[0] == MirrorFrame(h[0], k) && MirrorFrames(h, k)[3] == MirrorFrame(h[3], k);
  }

  /** At most one of the two stacks gets as far as reading the older EMAs. */
  lemma StackExclusive(close: real, ema20: real, ema50: real, ema200: real, older: Indicator)
    ensures Stacked(close, ema20, ema50, ema200, older, Long) == Ok(false) || Stacked(close, ema20, ema50, ema200, older, Short) == Ok(false)
  {
  }

  lemma SelectedEmaReflects(s0: Frame, d: Direction, k: real)
    ensures SelectedEma(MirrorFrame(s0, k), d.Opposite()) == MirrorValue(SelectedEma(s0, d), k)
  {
  }

  lemma SharedEntryReflects(e: seq<Frame>, d: Direction, trigger: real, k: real)
    requires |e| >= 2
    ensures SharedEntry(MirrorFrames(e, k), d.Opposite(), k - trigger) == SharedEntry(e, d, trigger)
  {
    hide ClosePosition;
    CandleReflects(e[0].candle, d, k);
  }

  // ---------------------------------------------------------------- triggers and match records

  lemma SetupTriggerReflects(setup: Setup, ctx: Context, level: Option<real>, atr: real, k: real)
    requires ctx.Valid()
    ensures SetupTrigger(setup, MirrorContext(ctx, k), MirrorPrice(level, k), atr) == MirrorValue(SetupTrigger(setup, ctx, level, atr), k)
  {
    hide MirrorFrames, MirrorContext, MirrorIndicator;
    EntryFramesReflect(ctx, k);
  }

  /** The frames the evaluators name, read from the mirrored context. */
  lemma SetupFramesReflect(ctx: Context, k: real)
    requires ctx.Valid()
    ensures var m := MirrorContext(ctx, k);
      && m.Valid() && m.direction == ctx.direction.Opposite() && m.s == MirrorFrames(ctx.s, k) && |m.s| == |ctx.s|
      && m.s[0] == MirrorFrame(ctx.s[0], k) && m.s[1] == MirrorFrame(ctx.s[1], k)
      && m.s[2] == MirrorFrame(ctx.s[2], k) && m.s[3] == MirrorFrame(ctx.s[3], k)
  {
  }

  lemma EntryFramesReflect(ctx: Context, k: real)
    requires ctx.Valid()
    ensures var m := MirrorContext(ctx, k);
      && m.Valid() && m.direction == ctx.direction.Opposite() && m.s[0] == MirrorFrame(ctx.s[0], k)
      && m.e[0] == MirrorFrame(ctx.e[0], k) && m.e[1] == MirrorFrame(ctx.e[1], k) && m.e[2] == MirrorFrame(ctx.e[2], k)
  {
  }

  lemma AheadReflects(x: real, y: real, d: Direction, k: real)
    ensures Ahead(k - x, k - y, d.Opposite()) == k - Ahead(x, y, d)
  {
  }

  lemma TriggerReflects(setup: Setup, ctx: Context, level: Option<real>, k: real)
    requires ctx.Valid()
    ensures EntryTrigger(setup, MirrorContext(ctx, k), MirrorPrice(level, k)) == MirrorValue(EntryTrigger(setup, ctx, level), k)
  {
    hide SetupTrigger, MirrorFrames, MirrorContext, MirrorCandle, MirrorPrice, PreviousBreakLevel, Ahead, ClosePosition;
    EntryFramesReflect(ctx, k);
    CandleReflects(ctx.e[1].candle, ctx.direction, k);
    var atr := ctx.e[0].indicator.atr;
    if atr.Some? {
      SetupTriggerReflects(setup, ctx, level, atr.value, k);
      var base := SetupTrigger(setup, ctx, level, atr.value);
      if base.Ok? { AheadReflects(base.value, PreviousBreakLevel(ctx.e[1].candle, ctx.direction), ctx.direction, k); }
    }
  }

  lemma MatchReflects(
    setup: Setup, ctx: Context, reference: int, trigger: real, points: real,
    level: Option<real>, selected: Option<real>,
    swing: Option<(real, real)>, compression: Option<(real, real)>, breakoutAt: Option<int>, k: real)
    requires ctx.Valid()
    ensures MatchOf(setup, MirrorContext(ctx, k), reference, k - trigger, points, MirrorPrice(level, k),
                    MirrorPrice(selected, k), MirrorBand(swing, k), MirrorBand(compression, k), breakoutAt)
            == MirrorOutcome(MatchOf(setup, ctx, reference, trigger, points, level, selected, swing, compression, breakoutAt), k)
  {
    hide MirrorPrice, MirrorBand, MirrorFrames, ExpiryMinutes;
    assert MirrorContext(ctx, k).s[0] == MirrorFrame(ctx.s[0], k);
  }

  lemma ConfirmReflects(
    setup: Setup, ctx: Context, reference: int, points: real,
    level: Option<real>, selected: Option<real>,
    swing: Option<(real, real)>, compression: Option<(real, real)>, breakoutAt: Option<int>, k: real)
    requires ctx.Valid()
    ensures Confirm(setup, MirrorContext(ctx, k), reference, points, MirrorPrice(level, k),
                    MirrorPrice(selected, k), MirrorBand(swing, k), MirrorBand(compression, k), breakoutAt)
            == MirrorOutcome(Confirm(setup, ctx, reference, points, level, selected, swing, compression, breakoutAt), k)
  {
    hide EntryTrigger, MirrorFrames, MirrorContext, MatchOf, MirrorPrice, MirrorBand, MirrorMatch;
    assert MirrorContext(ctx, k).Valid();
    TriggerReflects(setup, ctx, level, k);
    var trigger := EntryTrigger(setup, ctx, level);
    if trigger.Ok? {
      MatchReflects(setup, ctx, reference, trigger.value, points, level, selected, swing, compression, breakoutAt, k);
    }
  }

  // ---------------------------------------------------------------- the five setups

  lemma PullbackPartsReflect(s: seq<Frame>, ema20: real, ema50: real, atr: real, d: Direction, k: real)
    requires |s| >= 4
    ensures PullbackSequence(MirrorFrames(s, k), d.Opposite()) == PullbackSequence(s, d)
    ensures PullbackZone(MirrorCandle(s[1].candle, k), k - ema20, k - ema50, atr, d.Opposite()) == PullbackZone(s[1].candle, ema20, ema50, atr, d)
  {
  }

  lemma ZoneDistanceReflects(close: real, ema20: real, ema50: real, k: real)
    ensures ZoneDistance(k - close, k - ema20, k - ema50) == ZoneDistance(close, ema20, ema50)
  {
  }

  lemma RecoveryReflects(c0: Candle, ema20: real, rsi0: real, rsi1: real, hist0: real, hist1: real, d: Direction, k: real)
    ensures PullbackRecovery(MirrorCandle(c0, k), k - ema20, 100.0 - rsi0, 100.0 - rsi1, 0.0 - hist0, 0.0 - hist1, d.Opposite())
            == PullbackRecovery(c0, ema20, rsi0, rsi1, hist0, hist1, d)
  {
    hide ClosePosition, Margin;
    CandleReflects(c0, d, k);
    MarginReflects(rsi0, rsi1, d, 100.0);
    MarginReflects(hist0, hist1, d, 0.0);
  }

  lemma PullbackPointsReflect(
    c0: Candle, c1: Candle, ema20: real, ema50: real, atr0: real, atr1: real, rsi0: real, rsi1: real,
    hist0: real, hist1: real, d: Direction, k: real)
    requires atr0 > 0.0 && atr1 > 0.0
    ensures PullbackPoints(MirrorCandle(c0, k), MirrorCandle(c1, k), k - ema20, k - ema50, atr0, atr1, 100.0 - rsi0, 100.0 - rsi1,
                           0.0 - hist0, 0.0 - hist1, d.Opposite())
            == PullbackPoints(c0, c1, ema20, ema50, atr0, atr1, rsi0, rsi1, hist0, hist1, d)
  {
    hide NUp, NDown, Ratio, ZoneDistance, Body, Margin;
    ZoneDistanceReflects(c1.close, ema20, ema50, k);
    CandleReflects(c0, d, k);
    MarginReflects(rsi0, rsi1, d, 100.0);
    MarginReflects(hist0, hist1, d, 0.0);
  }

  lemma TrendPullbackReflects(ctx: Context, k: real)
    requires ctx.Valid()
    ensures EvaluateTrendPullback(MirrorContext(ctx, k)) == MirrorOutcome(EvaluateTrendPullback(ctx), k)
  {
    hide PullbackPoints, PullbackSequence, PullbackZone, PullbackRecovery, Confirm, MaxHigh, MinLow, MirrorMatch, MirrorFrames, MirrorContext, MirrorCandle;
    SetupFramesReflect(ctx, k);
    var d, c0, c1, i0, i1 := ctx.direction, ctx.s[0].candle, ctx.s[1].candle, ctx.s[0].indicator, ctx.s[1].indicator;
    if i0.ema20.Some? && i0.rsi.Some? && i1.rsi.Some? && i0.histogram.Some? && i1.histogram.Some?
       && i1.ema20.Some? && i1.ema50.Some? && i1.atr.Some? && i0.atr.Some? && i0.volumeRatio.Some? {
      PullbackPartsReflect(ctx.s, i1.ema20.value, i1.ema50.value, i1.atr.value, d, k);
      RecoveryReflects(c0, i0.ema20.value, i0.rsi.value, i1.rsi.value, i0.histogram.value, i1.histogram.value, d, k);
      PullbackPointsReflect(c0, c1, i1.ema20.value, i1.ema50.value, i0.atr.value, i1.atr.value, i0.rsi.value, i1.rsi.value,
                            i0.histogram.value, i1.histogram.value, d, k);
      ExtremesReflect(ctx.s[..4], k);
      MirrorSlice(ctx.s, 0, 4, k);
      var points := PullbackPoints(c0, c1, i1.ema20.value, i1.ema50.value, i0.atr.value, i1.atr.value, i0.rsi.value, i1.rsi.value,
                                   i0.histogram.value, i1.histogram.value, d);
      ConfirmReflects(TrendPullback, ctx, c0.closeTime, points, None, None,
                      Some((MinLow(ctx.s[..4]), MaxHigh(ctx.s[..4]))), None, None, k);
      assert MirrorCandle(c0, k).closeTime == c0.closeTime by { MirrorKeepsTime(c0, k); }
    }
  }

  lemma MirrorKeepsTime(c: Candle, k: real)
    ensures MirrorCandle(c, k).closeTime == c.closeTime
  {
  }

  lemma BreakoutLevelReflects(history: seq<Frame>, d: Direction, k: real)
    requires history != []
    ensures BreakoutLevel(MirrorFrames(history, k), d.Opposite()) == k - BreakoutLevel(history, d)
  {
    ExtremesReflect(history, k);
  }

  lemma BreakoutConfirmedReflects(b: Frame, level: real, atr: real, d: Direction, k: real)
    ensures BreakoutConfirmed(MirrorFrame(b, k), k - level, atr, d.Opposite()) == BreakoutConfirmed(b, level, atr, d)
  {
    hide ClosePosition, Margin, Body;
    CandleReflects(b.candle, d, k);
    MarginReflects(b.candle.close, level, d, k);
  }

  lemma RetestReflects(c0: Candle, level: real, atr: real, d: Direction, k: real)
    ensures RetestConfirmed(MirrorCandle(c0, k), k - level, atr, d.Opposite()) == RetestConfirmed(c0, level, atr, d)
  {
    DepthReflects(c0, level, d, k);
  }

  lemma RetestPointsReflect(c0: Candle, b: Candle, level: real, atr0: real, atrb: real, volume: real, d: Direction, k: real)
    requires atr0 > 0.0 && atrb > 0.0
    ensures RetestPoints(MirrorCandle(c0, k), MirrorCandle(b, k), k - level, atr0, atrb, volume, d.Opposite())
            == RetestPoints(c0, b, level, atr0, atrb, volume, d)
  {
    hide NUp, NDown, Ratio, Margin, Abs, Extreme;
    DepthReflects(c0, level, d, k);
    DepthReflects(b, level, d, k);
  }

  function MirrorAttempt(r: Result<Attempt, Code>, k: real): Result<Attempt, Code> {
    match r
    case Ok(Found(m)) => Ok(Found(MirrorMatch(m, k)))
    case _ => r
  }

  lemma AttemptReflects(ctx: Context, index: nat, k: real)
    requires ctx.Valid() && 1 <= index <= 3
    ensures TryBreakout(MirrorContext(ctx, k), index) == MirrorAttempt(TryBreakout(ctx, index), k)
  {
    hide RetestPoints, RetestConfirmed, BreakoutConfirmed, BreakoutLevel, Confirm, MirrorMatch, MirrorFrames, MirrorContext, MirrorCandle;
    SetupFramesReflect(ctx, k);
    if |ctx.s| >= index + 21 {
      var d, s0, b := ctx.direction, ctx.s[0], ctx.s[index];
      var history := ctx.s[index + 1..index + 21];
      var level := BreakoutLevel(history, d);
      MirrorSlice(ctx.s, index + 1, index + 21, k);
      BreakoutLevelReflects(history, d, k);
      if b.indicator.atr.Some? && s0.indicator.atr.Some? {
        BreakoutConfirmedReflects(b, level, b.indicator.atr.value, d, k);
        RetestReflects(s0.candle, level, s0.indicator.atr.value, d, k);
        if s0.indicator.volumeRatio.Some? && b.indicator.volumeRatio.Some? {
          var points := RetestPoints(s0.candle, b.candle, level, s0.indicator.atr.value, b.indicator.atr.value, b.indicator.volumeRatio.value, d);
          RetestPointsReflect(s0.candle, b.candle, level, s0.indicator.atr.value, b.indicator.atr.value, b.indicator.volumeRatio.value, d, k);
          ConfirmReflects(BreakoutRetest, ctx, b.candle.closeTime, points, Some(level), None, None, None, Some(b.candle.closeTime), k);
          MirrorKeepsTime(b.candle, k);
        }
      }
    }
  }

  lemma {:induction false} SearchReflects(ctx: Context, index: nat, seen: bool, k: real)
    requires ctx.Valid() && 1 <= index <= 4
    ensures SearchBreakout(MirrorContext(ctx, k), index, seen) == MirrorOutcome(SearchBreakout(ctx, index, seen), k)
    decreases 4 - index
  {
    hide TryBreakout, MirrorMatch, MirrorFrames, MirrorContext;
    SetupFramesReflect(ctx, k);
    if index < 4 {
      AttemptReflects(ctx, index, k);
      var attempt := TryBreakout(ctx, index);
      if attempt.Ok? && attempt.value.Skip? { SearchReflects(ctx, index + 1, seen || attempt.value.breakout, k); }
    }
  }

  lemma RejectionReflects(c0: Candle, selected: real, atr: real, rsi: real, hist0: real, hist1: real, d: Direction, k: real)
    requires Body(c0) > 0.0
    ensures Body(MirrorCandle(c0, k)) > 0.0
    ensures RejectionValid(MirrorCandle(c0, k), k - selected, atr, 100.0 - rsi, 0.0 - hist0, 0.0 - hist1, d.Opposite())
            == RejectionValid(c0, selected, atr, rsi, hist0, hist1, d)
  {
    hide ClosePosition, Ratio, Wick, Body, Extreme, Abs, Margin;
    CandleReflects(c0, d, k);
    DepthReflects(c0, selected, d, k);
    MarginReflects(hist0, hist1, d, 0.0);
  }

  lemma RejectionPointsReflect(c0: Candle, selected: real, atr: real, position: real, volume: real, d: Direction, k: real)
    requires atr > 0.0 && Body(c0) > 0.0
    ensures Body(MirrorCandle(c0, k)) > 0.0
    ensures RejectionPoints(MirrorCandle(c0, k), k - selected, atr, position, volume, d.Opposite())
            == RejectionPoints(c0, selected, atr, position, volume, d)
  {
    hide NUp, NDown, Ratio, Wick, Body, Extreme, Abs;
    CandleReflects(c0, d, k);
    DepthReflects(c0, selected, d, k);
  }

  lemma EmaRejectionReflects(ctx: Context, k: real)
    requires ctx.Valid()
    ensures EvaluateEmaRejection(MirrorContext(ctx, k)) == MirrorOutcome(EvaluateEmaRejection(ctx), k)
  {
    hide RejectionPoints, RejectionValid, SelectedEma, ClosePosition, Body, Confirm, MirrorMatch, MirrorFrames, MirrorContext, MirrorCandle;
    SetupFramesReflect(ctx, k);
    var d, s0, c0, i0, i1 := ctx.direction, ctx.s[0], ctx.s[0].candle, ctx.s[0].indicator, ctx.s[1].indicator;
    SelectedEmaReflects(s0, d, k);
    CandleReflects(c0, d, k);
    if i0.atr.Some? && SelectedEma(s0, d).Ok? && Body(c0) > 0.0 && i0.rsi.Some? && i0.histogram.Some? && i1.histogram.Some? {
      var selected := SelectedEma(s0, d).value;
      RejectionReflects(c0, selected, i0.atr.value, i0.rsi.value, i0.histogram.value, i1.histogram.value, d, k);
      if i0.volumeRatio.Some? && ClosePosition(c0, d).Ok? {
        var position := ClosePosition(c0, d).value;
        var points := RejectionPoints(c0, selected, i0.atr.value, position, i0.volumeRatio.value, d);
        RejectionPointsReflect(c0, selected, i0.atr.value, position, i0.volumeRatio.value, d, k);
        ConfirmReflects(EmaRejection, ctx, c0.closeTime, points, None, Some(selected), None, None, None, k);
        MirrorKeepsTime(c0, k);
      }
    }
  }

  lemma SweepReflects(c0: Candle, level: real, atr: real, rsi0: real, rsi1: real, hist0: real, hist1: real, d: Direction, k: real)
    requires Body(c0) > 0.0
    ensures Body(MirrorCandle(c0, k)) > 0.0
    ensures SweepValid(MirrorCandle(c0, k), k - level, atr, 100.0 - rsi0, 100.0 - rsi1, 0.0 - hist0, 0.0 - hist1, d.Opposite())
            == SweepValid(c0, level, atr, rsi0, rsi1, hist0, hist1, d)
  {
    hide ClosePosition, Ratio, Wick, Body, SweepDepth, Margin;
    CandleReflects(c0, d, k);
    DepthReflects(c0, level, d, k);
    MarginReflects(rsi0, rsi1, d, 100.0);
    MarginReflects(hist0, hist1, d, 0.0);
  }

  lemma SweepPointsReflect(c0: Candle, level: real, atr: real, volume: real, d: Direction, k: real)
    requires atr > 0.0 && Body(c0) > 0.0
    ensures Body(MirrorCandle(c0, k)) > 0.0
    ensures SweepPoints(MirrorCandle(c0, k), k - level, atr, volume, d.Opposite()) == SweepPoints(c0, level, atr, volume, d)
  {
    hide NUp, Ratio, Wick, Body, SweepDepth, Margin;
    CandleReflects(c0, d, k);
    DepthReflects(c0, level, d, k);
  }

  lemma SweepLevelReflects(ctx: Context, k: real)
    requires ctx.Valid()
    ensures SweepLevel(MirrorContext(ctx, k)) == k - SweepLevel(ctx)
  {
    SetupFramesReflect(ctx, k);
    var to := if |ctx.s| < 11 then |ctx.s| else 11;
    MirrorSlice(ctx.s, 1, to, k);
    ExtremesReflect(SweepHistory(ctx.s), k);
  }

  lemma LiquiditySweepReflects(ctx: Context, k: real)
    requires ctx.Valid()
    ensures EvaluateLiquiditySweep(MirrorContext(ctx, k)) == MirrorOutcome(EvaluateLiquiditySweep(ctx), k)
  {
    hide SweepPoints, SweepValid, SweepLevel, Body, Confirm, MirrorMatch, MirrorFrames, MirrorContext, MirrorCandle;
    SetupFramesReflect(ctx, k);
    SweepLevelReflects(ctx, k);
    var d, c0, i0, i1 := ctx.direction, ctx.s[0].candle, ctx.s[0].indicator, ctx.s[1].indicator;
    var level := SweepLevel(ctx);
    CandleReflects(c0, d, k);
    if i0.atr.Some? && Body(c0) > 0.0 && i0.rsi.Some? && i1.rsi.Some? && i0.histogram.Some? && i1.histogram.Some? {
      SweepReflects(c0, level, i0.atr.value, i0.rsi.value, i1.rsi.value, i0.histogram.value, i1.histogram.value, d, k);
      if i0.volumeRatio.Some? {
        var points := SweepPoints(c0, level, i0.atr.value, i0.volumeRatio.value, d);
        SweepPointsReflect(c0, level, i0.atr.value, i0.volumeRatio.value, d, k);
        ConfirmReflects(LiquiditySweepReversal, ctx, c0.closeTime, points, Some(level), None, None, None, None, k);
        MirrorKeepsTime(c0, k);
      }
    }
  }

  lemma CompressedFrameReflects(f: Frame, d: Direction, k: real)
    ensures CompressedFrame(MirrorFrame(f, k), d.Opposite()) == CompressedFrame(f, d)
  {
  }

  lemma {:induction false} CompressionReflects(frames: seq<Frame>, d: Direction, k: real)
    ensures AllCompressed(MirrorFrames(frames, k), d.Opposite()) == AllCompressed(frames, d)
  {
    hide CompressedFrame;
    if frames != [] {
      CompressedFrameReflects(frames[0], d, k);
      CompressionReflects(frames[1..], d, k);
      MirrorSlice(frames, 1, |frames|, k);
    }
  }

  lemma ContinuationBreakReflects(s0: Frame, s1: Frame, boundary: real, atr: real, rsi: real, hist: real, d: Direction, k: real)
    ensures ContinuationBreak(MirrorFrame(s0, k), MirrorFrame(s1, k), k - boundary, atr, 100.0 - rsi, 0.0 - hist, d.Opposite())
            == ContinuationBreak(s0, s1, boundary, atr, rsi, hist, d)
  {
    hide ClosePosition, Body, Margin, DirectedHistogram;
    CandleReflects(s0.candle, d, k);
    MarginReflects(s0.candle.close, boundary, d, k);
    HistogramReflects(hist, if s1.indicator.histogram.Some? then s1.indicator.histogram.value else 0.0, d);
  }

  lemma ContinuationPointsReflect(c0: Candle, width: real, boundary: real, atr: real, volume: real, d: Direction, k: real)
    requires atr > 0.0
    ensures ContinuationPoints(MirrorCandle(c0, k), width, k - boundary, atr, volume, d.Opposite())
            == ContinuationPoints(c0, width, boundary, atr, volume, d)
  {
    hide NUp, NDown, Ratio, Body, Margin;
    CandleReflects(c0, d, k);
    MarginReflects(c0.close, boundary, d, k);
  }

  lemma ContinuationReflects(ctx: Context, k: real)
    requires ctx.Valid()
    ensures EvaluateContinuation(MirrorContext(ctx, k)) == MirrorOutcome(EvaluateContinuation(ctx), k)
  {
    hide ContinuationPoints, ContinuationBreak, AllCompressed, MaxHigh, MinLow, Confirm, MirrorMatch, MirrorFrames, MirrorContext, MirrorCandle;
    SetupFramesReflect(ctx, k);
    var d, s0, s1 := ctx.direction, ctx.s[0], ctx.s[1];
    var compression := ctx.s[1..4];
    MirrorSlice(ctx.s, 1, 4, k);
    ExtremesReflect(compression, k);
    CompressionReflects(compression, d, k);
    var high, low := MaxHigh(compression), MinLow(compression);
    var boundary := Boundary(high, low, d);
    if s0.indicator.atr.Some? && s0.indicator.rsi.Some? && s0.indicator.histogram.Some? {
      ContinuationBreakReflects(s0, s1, boundary, s0.indicator.atr.value, s0.indicator.rsi.value, s0.indicator.histogram.value, d, k);
      if s0.indicator.volumeRatio.Some? {
        var points := ContinuationPoints(s0.candle, high - low, boundary, s0.indicator.atr.value, s0.indicator.volumeRatio.value, d);
        ContinuationPointsReflect(s0.candle, high - low, boundary, s0.indicator.atr.value, s0.indicator.volumeRatio.value, d, k);
        ConfirmReflects(ContinuationSetup, ctx, s0.candle.closeTime, points, Some(boundary), None, None, Some((high, low)), None, k);
        MirrorKeepsTime(s0.candle, k);
      }
    }
  }

  /** Every setup gives the mirrored outcome on the mirrored market: the same error code, or the same match with
      its prices reflected and its points unchanged. */
  lemma EvaluateReflects(setup: Setup, ctx: Context, k: real)
    requires ctx.Valid()
    ensures Evaluate(setup, MirrorContext(ctx, k)) == MirrorOutcome(Evaluate(setup, ctx), k)
  {
    hide EvaluateTrendPullback, SearchBreakout, EvaluateEmaRejection, EvaluateLiquiditySweep, EvaluateContinuation, MirrorContext, MirrorMatch;
    assert MirrorContext(ctx, k).Valid();
    match setup
    case TrendPullback => TrendPullbackReflects(ctx, k);
    case BreakoutRetest => SearchReflects(ctx, 1, false, k);
    case EmaRejection => EmaRejectionReflects(ctx, k);
    case LiquiditySweepReversal => LiquiditySweepReflects(ctx, k);
    case ContinuationSetup => ContinuationReflects(ctx, k);
  }

  /** A whole evaluation accepts the same setups in the same order and reports the same failure codes. */
  lemma {:induction false} EvaluationReflects(ctx: Context, setups: seq<Setup>, k: real)
    requires ctx.Valid()
    ensures Accepted(MirrorContext(ctx, k), setups) == MirrorMatches(Accepted(ctx, setups), k)
    ensures Failures(MirrorContext(ctx, k), setups) == Failures(ctx, setups)
  {
    hide Evaluate, MirrorContext, MirrorMatch;
    assert MirrorContext(ctx, k).Valid();
    if setups != [] {
      var last, rest := setups[|setups| - 1], setups[..|setups| - 1];
      EvaluationReflects(ctx, rest, k);
      EvaluateReflects(last, ctx, k);
      var r := Evaluate(last, ctx);
      if r.Ok? {
        var all := Accepted(ctx, rest) + [r.value];
        assert all[..|all| - 1] == Accepted(ctx, rest);
      } else {
        assert Accepted(ctx, rest) + [] == Accepted(ctx, rest);
      }
    }
  }

  // ---------------------------------------------------------------- score

  lemma TrendPointsReflect(h0: Frame, h3: Frame, d: Direction, k: real)
    requires h0.Valid()
    ensures TrendPoints(MirrorFrame(h0, k), MirrorFrame(h3, k), d.Opposite()) == TrendPoints(h0, h3, d)
  {
    hide NUp, Ratio;
  }

  lemma EntryPointsReflect(e0: Frame, trigger: real, d: Direction, k: real)
    requires e0.Valid()
    ensures EntryPoints(MirrorFrame(e0, k), k - trigger, d.Opposite()) == EntryPoints(e0, trigger, d)
  {
    hide NUp, NDown, Ratio, ClosePosition;
    CandleReflects(e0.candle, d, k);
  }

  lemma RsiTargetReflects(rsi: real, d: Direction)
    ensures NTarget(100.0 - rsi, if d.Opposite() == Long then 60.0 else 40.0, 15.0) == NTarget(rsi, if d == Long then 60.0 else 40.0, 15.0)
  {
    hide Clamp;
    assert Abs(100.0 - rsi - 40.0) == Abs(rsi - 60.0) && Abs(100.0 - rsi - 60.0) == Abs(rsi - 40.0);
  }

  lemma MomentumPointsReflect(s0: Frame, s1: Frame, e0: Frame, d: Direction, k: real)
    requires s0.Valid() && e0.Valid()
    ensures MomentumPoints(MirrorFrame(s0, k), MirrorFrame(s1, k), MirrorFrame(e0, k), d.Opposite()) == MomentumPoints(s0, s1, e0, d)
  {
    hide NUp, NTarget, Ratio;
    if s0.indicator.rsi.Some? { RsiTargetReflects(s0.indicator.rsi.value, d); }
  }

  lemma VotesReflect(s0: Frame, e0: Frame, d: Direction, k: real)
    ensures Votes(MirrorFrame(s0, k), MirrorFrame(e0, k), d.Opposite()) == Votes(s0, e0, d)
  {
  }

  lemma TrendFramesReflect(ctx: Context, k: real)
    requires ctx.Valid()
    ensures var m := MirrorContext(ctx, k);
      && m.h == MirrorFrames(ctx.h, k) && m.h[0] == MirrorFrame(ctx.h[0], k) && m.h[3] == MirrorFrame(ctx.h[3], k)
      && m.e == MirrorFrames(ctx.e, k)
      && m.quoteLog == ctx.quoteLog && m.spreadBps == ctx.spreadBps && m.counts == ctx.counts && m.freshness == ctx.freshness
  {
  }

  /** Score, confidence, grade and every component are identical, not reflected. */
  lemma ScoreReflects(ctx: Context, m: Match, entryReady: bool, k: real)
    requires ctx.Valid()
    ensures ScoreOf(MirrorContext(ctx, k), MirrorMatch(m, k), entryReady) == ScoreOf(ctx, m, entryReady)
  {
    hide TrendPoints, EntryPoints, MomentumPoints, Votes, Combine, Completeness, NUp, Clamp, MirrorFrames, MirrorContext;
    SetupFramesReflect(ctx, k);
    EntryFramesReflect(ctx, k);
    TrendFramesReflect(ctx, k);
    TrendPointsReflect(ctx.h[0], ctx.h[3], ctx.direction, k);
    EntryPointsReflect(ctx.e[0], m.trigger, ctx.direction, k);
    MomentumPointsReflect(ctx.s[0], ctx.s[1], ctx.e[0], ctx.direction, k);
    VotesReflect(ctx.s[0], ctx.e[0], ctx.direction, k);
  }

  function MirrorVerdict(v: Result<Verdict, Code>, k: real): Result<Verdict, Code> {
    if v.Err? then v else Ok(v.value.(match_ := MirrorMatch(v.value.match_, k)))
  }

  lemma JudgeReflects(ctx: Context, m: Match, now: int, k: real)
    requires ctx.Valid()
    ensures Judge(MirrorContext(ctx, k), MirrorMatch(m, k), now) == MirrorVerdict(Judge(ctx, m, now), k)
  {
    hide SharedEntry, ScoreOf, LifecycleOf, MirrorFrames, MirrorContext, MirrorIndicator;
    EntryFramesReflect(ctx, k);
    TrendFramesReflect(ctx, k);
    SharedEntryReflects(ctx.e, ctx.direction, m.trigger, k);
    ScoreReflects(ctx, m, true, k);
    ScoreReflects(ctx, m, false, k);
  }

  // ---------------------------------------------------------------- one symbol

  function MirrorVerdicts(vs: seq<Verdict>, k: real): seq<Verdict> {
    if vs == [] then [] else MirrorVerdicts(vs[..|vs| - 1], k) + [MirrorJudged(vs[|vs| - 1], k)]
  }

  function MirrorJudged(v: Verdict, k: real): Verdict { v.(match_ := MirrorMatch(v.match_, k)) }

  function MirrorJudgements(r: Result<seq<Verdict>, Code>, k: real): Result<seq<Verdict>, Code> {
    if r.Err? then r else Ok(MirrorVerdicts(r.value, k))
  }

  function MirrorChoice(r: Result<Option<Verdict>, Code>, k: real): Result<Option<Verdict>, Code> {
    if r.Err? || r.value.None? then r else Ok(Some(MirrorJudged(r.value.value, k)))
  }

  lemma {:induction false} JudgeAllReflects(ctx: Context, ms: seq<Match>, now: int, k: real)
    requires ctx.Valid()
    ensures JudgeAll(MirrorContext(ctx, k), MirrorMatches(ms, k), now) == MirrorJudgements(JudgeAll(ctx, ms, now), k)
  {
    hide Judge, MirrorMatch, MirrorContext;
    assert MirrorContext(ctx, k).Valid();
    if ms != [] {
      var init, last := ms[..|ms| - 1], ms[|ms| - 1];
      JudgeAllReflects(ctx, init, now, k);
      JudgeReflects(ctx, last, now, k);
      var mirrored := MirrorMatches(ms, k);
      assert mirrored[..|mirrored| - 1] == MirrorMatches(init, k) && mirrored[|mirrored| - 1] == MirrorMatch(last, k);
      if JudgeAll(ctx, init, now).Ok? && Judge(ctx, last, now).Ok? {
        var all := JudgeAll(ctx, ms, now).value;
        assert all[..|all| - 1] == JudgeAll(ctx, init, now).value;
      }
    }
  }

  lemma {:induction false} BestReflects(vs: seq<Verdict>, k: real)
    ensures |MirrorVerdicts(vs, k)| == |vs|
    ensures vs != [] ==> Best(MirrorVerdicts(vs, k)) == MirrorJudged(Best(vs), k)
  {
    hide LifecycleRank, SetupRank;
    if vs != [] {
      var init, mirrored := vs[..|vs| - 1], MirrorVerdicts(vs, k);
      BestReflects(init, k);
      assert mirrored[..|mirrored| - 1] == MirrorVerdicts(init, k);
    }
  }

  /** The selection among all setups picks the mirrored candidate, or fails with the same code. */
  lemma DecideReflects(ctx: Context, now: int, k: real)
    requires ctx.Valid()
    ensures Decide(MirrorContext(ctx, k), now) == MirrorChoice(Decide(ctx, now), k)
  {
    hide Accepted, JudgeAll, Best, MirrorContext, MirrorVerdicts, MirrorMatches, MirrorJudged;
    assert MirrorContext(ctx, k).Valid();
    EvaluationReflects(ctx, SetupOrder, k);
    JudgeAllReflects(ctx, Accepted(ctx, SetupOrder), now, k);
    var verdicts := JudgeAll(ctx, Accepted(ctx, SetupOrder), now);
    if verdicts.Ok? { BestReflects(verdicts.value, k); }
  }

  // ---------------------------------------------------------------- the volatility gates, which do not reflect

  /** What one gate answers about a close and an ATR; None admits. */
  function GateAnswer(close: real, atr: real, minimum: real, maximum: real): Option<Code> {
    if close <= 0.0 then Some(MissingRequiredIndicator)
    else if atr < minimum * close then Some(VolatilityBelowMinimum)
    else if atr > maximum * close then Some(VolatilityAboveMaximum)
    else None
  }

  /** What both gates answer, the 15-minute gate first. */
  function GateAnswers(close15: real, atr15: real, close5: real, atr5: real): Option<Code> {
    var quarter := GateAnswer(close15, atr15, 0.0015, 0.025);
    if quarter.Some? then quarter else GateAnswer(close5, atr5, 0.0005, 0.015)
  }

  lemma RatioBound(atr: real, close: real, bound: real)
    requires close > 0.0
    ensures (Ratio(atr, close) < bound <==> atr < bound * close) && (Ratio(atr, close) > bound <==> atr > bound * close)
  {
    assert Ratio(atr, close) * close == atr;
    if Ratio(atr, close) < bound { assert Ratio(atr, close) * close < bound * close; }
    if Ratio(atr, close) > bound { assert Ratio(atr, close) * close > bound * close; }
  }

  lemma GateByBounds(f: Frame, minimum: real, maximum: real)
    requires f.indicator.atr.Some? && f.indicator.atr.value > 0.0
    ensures Volatility(f, minimum, maximum)
            == var a := GateAnswer(f.candle.close, f.indicator.atr.value, minimum, maximum); if a.None? then Ok(true) else Err(a.value)
  {
    hide Ratio;
    if f.candle.close > 0.0 {
      RatioBound(f.indicator.atr.value, f.candle.close, minimum);
      RatioBound(f.indicator.atr.value, f.candle.close, maximum);
    }
  }

  /** What alignment guarantees of a frame within the required depth. */
  predicate Complete(f: Frame) {
    var i := f.indicator;
    && i.ema20.Some? && i.ema50.Some? && i.ema200.Some? && i.rsi.Some? && i.macd.Some? && i.signal.Some? && i.histogram.Some?
    && i.volumeRatio.Some? && i.atr.Some? && i.atr.value > 0.0
  }

  predicate Aligned(market: Context) {
    && market.Valid()
    && Complete(market.h[0]) && Complete(market.h[3]) && Complete(market.s[0]) && Complete(market.s[1])
    && Complete(market.e[0]) && Complete(market.e[1])
  }

  /** Of complete frames only a flat entry candle can still stop a judgement. */
  lemma JudgeFailsOnlyOnFlatCandle(ctx: Context, m: Match, now: int)
    requires Aligned(ctx)
    ensures var r := Judge(ctx, m, now); (r.Err? ==> r.error == InvalidOhlcv(Quarter)) && (Spread(ctx.e[0].candle) > 0.0 ==> r.Ok?)
  {
    hide NUp, NDown, NTarget, Ratio, Combine, Completeness, Clamp, LifecycleOf, Margin, Votes;
    VotesFollow(ctx.s[0], ctx.e[0], ctx.direction);
  }

  lemma VotesFollow(s0: Frame, e0: Frame, d: Direction)
    requires Complete(s0) && Complete(e0)
    ensures Votes(s0, e0, d).Ok?
  {
  }

  lemma {:induction false} DecideFailsOnlyOnFlatCandle(ctx: Context, ms: seq<Match>, now: int)
    requires Aligned(ctx)
    ensures var r := JudgeAll(ctx, ms, now); (r.Err? ==> r.error == InvalidOhlcv(Quarter)) && (Spread(ctx.e[0].candle) > 0.0 ==> r.Ok?)
  {
    hide Judge, Aligned, Complete;
    assert ctx.Valid() by { AlignedIsValid(ctx); }
    if ms != [] {
      DecideFailsOnlyOnFlatCandle(ctx, ms[..|ms| - 1], now);
      JudgeFailsOnlyOnFlatCandle(ctx, ms[|ms| - 1], now);
    }
  }

  lemma AlignedIsValid(ctx: Context)
    requires Aligned(ctx)
    ensures ctx.Valid()
  {
  }

  function MirrorScan(r: Result<(Direction, Option<Verdict>), Code>, k: real): Result<(Direction, Option<Verdict>), Code> {
    match r
    case Ok((d, Some(v))) => Ok((d.Opposite(), Some(MirrorJudged(v, k))))
    case Ok((d, None)) => Ok((d.Opposite(), None))
    case Err(_) => r
  }

  /** Both gates admit the original and the reflected prices, or refuse both for the same reason. */
  predicate GatesAgree(market: Context, k: real)
    requires Aligned(market)
  {
    var s0, e0 := market.s[0], market.e[0];
    GateAnswers(s0.candle.close, s0.indicator.atr.value, e0.candle.close, e0.indicator.atr.value)
    == GateAnswers(k - s0.candle.close, s0.indicator.atr.value, k - e0.candle.close, e0.indicator.atr.value)
  }

  predicate GateResult(r: Result<bool, Code>) { r == Ok(true) || (r.Err? && r.error != InvalidOhlcv(Quarter)) }

  lemma GatesReflectExactlyWhenTheyAgree(market: Context, k: real)
    requires Aligned(market)
    ensures var s0, e0 := market.s[0], market.e[0];
      && (Gates(MirrorFrame(s0, k), MirrorFrame(e0, k)) == Gates(s0, e0) <==> GatesAgree(market, k))
      && GateResult(Gates(s0, e0)) && GateResult(Gates(MirrorFrame(s0, k), MirrorFrame(e0, k)))
  {
    hide Volatility;
    var s0, e0 := market.s[0], market.e[0];
    GateByBounds(s0, 0.0015, 0.025);
    GateByBounds(e0, 0.0005, 0.015);
    GateByBounds(MirrorFrame(s0, k), 0.0015, 0.025);
    GateByBounds(MirrorFrame(e0, k), 0.0005, 0.015);
  }

  /** From regime to selected candidate, on loaded frames and frames that are their reflection. A symbol is bought on a setup
      exactly when its reflection is sold on it, with the same readiness, score, confidence, grade and lifecycle, and
      otherwise fails with the same code - if and only if the regime refuses it or the volatility gates answer alike about
      (close, ATR) and (k - close, ATR). */
  lemma ScanReflectsExactlyWhen(market: Context, structure: Structure, now: int, k: real)
    requires Aligned(market)
    ensures ScanSymbol(MirrorContext(market, k), MirrorStructure(structure), now) == MirrorScan(ScanSymbol(market, structure, now), k)
            <==> Regime(market.h, structure).Err? || GatesAgree(market, k)
  {
    hide Regime, Gates, GatesAgree, Decide, MirrorJudged, MirrorStructure, MirrorFrames, MirrorContext, Aligned;
    AlignedIsValid(market);
    SetupFramesReflect(market, k);
    EntryFramesReflect(market, k);
    TrendFramesReflect(market, k);
    RegimeReflects(market.h, structure, k);
    GatesReflectExactlyWhenTheyAgree(market, k);
    var regime, mirrored := Regime(market.h, structure), MirrorContext(market, k);
    if regime.Ok? {
      var ctx := market.(direction := regime.value);
      AlignedInAnyDirection(market, regime.value);
      DirectionReflects(market, regime.value, k);
      DecideReflects(ctx, now, k);
      DecisionIsNoGateError(ctx, now);
      var gates, mirroredGates := Gates(market.s[0], market.e[0]), Gates(mirrored.s[0], mirrored.e[0]);
      if mirroredGates.Ok? && gates.Ok? {
        assert Decide(mirrored.(direction := regime.value.Opposite()), now) == MirrorChoice(Decide(ctx, now), k);
      }
    }
  }

  lemma DirectionReflects(market: Context, d: Direction, k: real)
    ensures MirrorContext(market, k).(direction := d.Opposite()) == MirrorContext(market.(direction := d), k)
  {
  }

  lemma AlignedInAnyDirection(market: Context, d: Direction)
    requires Aligned(market)
    ensures Aligned(market.(direction := d)) && market.(direction := d).Valid()
  {
  }

  lemma DecisionIsNoGateError(ctx: Context, now: int)
    requires Aligned(ctx)
    ensures Decide(ctx, now).Err? ==> Decide(ctx, now).error == InvalidOhlcv(Quarter)
    ensures Spread(ctx.e[0].candle) > 0.0 ==> Decide(ctx, now).Ok?
  {
    hide JudgeAll, Accepted, Best, Complete;
    DecideFailsOnlyOnFlatCandle(ctx, Accepted(ctx, SetupOrder), now);
  }

  // ---------------------------------------------------------------- a market whose reflection is refused

  const Calm := Indicator(Some(30.0), Some(20.0), Some(10.0), Some(60.0), Some(2.0), Some(1.0), Some(1.0), Some(1.0), Some(1.0))
  const Earlier := Calm.(ema20 := Some(29.0), ema50 := Some(19.0), ema200 := Some(9.0))
  const HourCandle := Candle(40.0, 40.0, 40.0, 40.0, 0)
  const EntryCandle := Candle(99.0, 101.0, 98.0, 100.0, 0)
  const CalmMarket := Context(
    Long, [Frame(HourCandle, Calm), Frame(HourCandle, Calm), Frame(HourCandle, Calm), Frame(HourCandle, Earlier)],
    [Frame(EntryCandle, Calm), Frame(EntryCandle, Calm), Frame(EntryCandle, Calm), Frame(EntryCandle, Calm)],
    [Frame(EntryCandle, Calm), Frame(EntryCandle, Calm), Frame(EntryCandle, Calm)],
    0.0, 0.0, (250, 250, 250), (1.0, 1.0, 1.0))

  /** An uptrend closing at 100 with an ATR of 1 is evaluated; reflected at 110 it closes at 10 and is refused as too
      volatile. */
  lemma ReflectionCanBeTooVolatile(now: int)
    ensures Aligned(CalmMarket)
    ensures ScanSymbol(CalmMarket, Bullish, now).Ok?
    ensures ScanSymbol(MirrorContext(CalmMarket, 110.0), Bearish, now) == Err(VolatilityAboveMaximum)
  {
    hide Decide, MirrorFrames;
    assert Regime(CalmMarket.h, Bullish) == Ok(Long);
    RegimeReflects(CalmMarket.h, Bullish, 110.0);
    SetupFramesReflect(CalmMarket, 110.0);
    EntryFramesReflect(CalmMarket, 110.0);
    DecisionIsNoGateError(CalmMarket, now);
  }

  // ---------------------------------------------------------------- stored setups

  lemma ReferenceExtremeReflects(c: Candidate, s0: Frame, k: real)
    ensures ReferenceExtreme(MirrorCandidate(c, k), MirrorFrame(s0, k)) == k - ReferenceExtreme(c, s0)
  {
  }

  /** Invalidation strikes the mirrored candidate on the mirrored market exactly when it strikes the original. */
  lemma InvalidationReflects(c: Candidate, s0: Frame, e0: Frame, k: real)
    ensures Invalidated(MirrorCandidate(c, k), MirrorFrame(s0, k), MirrorFrame(e0, k)) == Invalidated(c, s0, e0)
  {
    hide ReferenceExtreme;
    ReferenceExtremeReflects(c, s0, k);
  }

  function MirrorBoundary(b: Result<Option<real>, Code>, k: real): Result<Option<real>, Code> {
    if b.Err? then b else Ok(MirrorPrice(b.value, k))
  }

  lemma BoundaryReflects(c: Candidate, s0: Frame, e0: Frame, k: real)
    ensures StopBoundary(MirrorCandidate(c, k), MirrorFrame(s0, k), MirrorFrame(e0, k)) == MirrorBoundary(StopBoundary(c, s0, e0), k)
  {
    hide ReferenceExtreme;
    ReferenceExtremeReflects(c, s0, k);
  }

  /** The stop handed to Risk reflects too, as long as the boundary stays positive on both axes: that it must be a price
      above zero is the one asymmetry of the stop. */
  lemma StopReflectsInsideTheAxis(c: Candidate, trigger: real, s0: Frame, e0: Frame, k: real)
    ensures var b := StopBoundary(c, s0, e0); var stop := RiskStopPrice(c, trigger, s0, e0);
      var mirrored := RiskStopPrice(MirrorCandidate(c, k), k - trigger, MirrorFrame(s0, k), MirrorFrame(e0, k));
      && (b.Err? ==> stop == b && mirrored == b)
      && (b.Ok? ==> stop.Ok? && mirrored.Ok?)
      && (b.Ok? && !(b.value.Some? && Margin(trigger, b.value.value, c.direction) > 0.0) ==> stop.value.None? && mirrored.value.None?)
      && (b.Ok? && b.value.Some? && Margin(trigger, b.value.value, c.direction) > 0.0 ==>
            (mirrored.value == MirrorPrice(stop.value, k) <==> (0.0 < b.value.value < k || (b.value.value <= 0.0 && b.value.value >= k))))
  {
    hide StopBoundary;
    BoundaryReflects(c, s0, e0, k);
    if StopBoundary(c, s0, e0).Ok? && StopBoundary(c, s0, e0).value.Some? {
      MarginReflects(trigger, StopBoundary(c, s0, e0).value.value, c.direction, k);
    }
  }
}