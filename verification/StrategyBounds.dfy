/** The scoring budget of the strategy: every component stays within its share, the shares add up to one hundred, and
    so neither clamp of the source ever bites. Closes with what qualification amounts to. */
module StrategyBounds {
  import opened Trading
  import opened Strategy
  import opened StrategyRules

  // ---------------------------------------------------------------- normalisers

  lemma Fraction(x: real, y: real)
    requires 0.0 <= x <= y && y > 0.0
    ensures 0.0 <= x / y <= 1.0
  {
  }

  lemma NUpIsUnit(value: real, minimum: real, full: real)
    requires minimum < full
    ensures 0.0 <= NUp(value, minimum, full) <= 1.0
  {
    if minimum < value < full { Fraction(value - minimum, full - minimum); }
  }

  lemma NDownIsUnit(value: real, full: real, maximum: real)
    requires full < maximum
    ensures 0.0 <= NDown(value, full, maximum) <= 1.0
  {
    if full < value < maximum { Fraction(value - full, maximum - full); }
  }

  lemma NTargetIsUnit(value: real, target: real, tolerance: real)
    requires tolerance > 0.0
    ensures 0.0 <= NTarget(value, target, tolerance) <= 1.0
  {
  }

  // ---------------------------------------------------------------- setup points: at most 25

  predicate Within(x: real, limit: real) { 0.0 <= x <= limit }

  lemma PullbackBudget(
    c0: Candle, c1: Candle, ema20: real, ema50: real, atr0: real, atr1: real, rsi0: real, rsi1: real, hist0: real, hist1: real, d: Direction)
    requires atr0 > 0.0 && atr1 > 0.0
    ensures Within(PullbackPoints(c0, c1, ema20, ema50, atr0, atr1, rsi0, rsi1, hist0, hist1, d), 25.0)
  {
    hide NUp, NDown, Ratio, ZoneDistance, Body, Margin;
    NDownIsUnit(Ratio(ZoneDistance(c1.close, ema20, ema50), atr1), 0.0, 0.25);
    NUpIsUnit(Ratio(Body(c0), atr0), 0.10, 1.0);
    NUpIsUnit(Margin(rsi0, rsi1, d), 0.0, 10.0);
    NUpIsUnit(Ratio(Margin(hist0, hist1, d), atr0), 0.0, 0.10);
  }

  lemma RetestBudget(c0: Candle, b: Candle, level: real, atr0: real, atrb: real, volume: real, d: Direction)
    requires atr0 > 0.0 && atrb > 0.0
    ensures Within(RetestPoints(c0, b, level, atr0, atrb, volume, d), 25.0)
  {
    hide NUp, NDown, Ratio, Margin, Abs, Extreme;
    NUpIsUnit(Ratio(Margin(b.close, level, d), atrb), 0.10, 0.40);
    NDownIsUnit(Ratio(Abs(Extreme(c0, d) - level), atr0), 0.0, 0.20);
    NUpIsUnit(Ratio(Margin(c0.close, level, d), atr0), 0.05, 0.40);
    NUpIsUnit(volume, 1.50, 2.50);
  }

  lemma RejectionBudget(c0: Candle, selected: real, atr: real, position: real, volume: real, d: Direction)
    requires atr > 0.0 && Body(c0) > 0.0
    ensures Within(RejectionPoints(c0, selected, atr, position, volume, d), 25.0)
  {
    hide NUp, NDown, Ratio, Wick, Body, Abs, Extreme;
    NUpIsUnit(Ratio(Wick(c0, d), Body(c0)), 1.50, 4.0);
    NDownIsUnit(Ratio(Abs(Extreme(c0, d) - selected), atr), 0.0, 0.20);
    NUpIsUnit(position, 0.70, 0.90);
    NUpIsUnit(volume, 1.0, 2.50);
  }

  lemma SweepBudget(c0: Candle, level: real, atr: real, volume: real, d: Direction)
    requires atr > 0.0 && Body(c0) > 0.0
    ensures Within(SweepPoints(c0, level, atr, volume, d), 25.0)
  {
    hide NUp, Ratio, Wick, Body, SweepDepth, Margin;
    NUpIsUnit(Ratio(SweepDepth(c0, level, d), atr), 0.05, 0.40);
    NUpIsUnit(Ratio(Margin(c0.close, level, d), atr), 0.05, 0.40);
    NUpIsUnit(Ratio(Wick(c0, d), Body(c0)), 1.50, 4.0);
    NUpIsUnit(volume, 1.20, 2.50);
  }

  lemma ContinuationBudget(c0: Candle, width: real, boundary: real, atr: real, volume: real, d: Direction)
    requires atr > 0.0
    ensures Within(ContinuationPoints(c0, width, boundary, atr, volume, d), 25.0)
  {
    hide NUp, NDown, Ratio, Body, Margin;
    NDownIsUnit(Ratio(width, atr), 0.75, 1.50);
    NUpIsUnit(Ratio(Margin(c0.close, boundary, d), atr), 0.05, 0.40);
    NUpIsUnit(Ratio(Body(c0), atr), 0.40, 1.0);
    NUpIsUnit(volume, 1.20, 2.50);
  }

  lemma ConfirmKeepsPoints(
    setup: Setup, ctx: Context, reference: int, points: real, level: Option<real>, selected: Option<real>,
    swing: Option<(real, real)>, compression: Option<(real, real)>, breakoutAt: Option<int>)
    requires ctx.Valid()
    ensures var r := Confirm(setup, ctx, reference, points, level, selected, swing, compression, breakoutAt);
      r.Ok? ==> r.value.points == points && r.value.setup == setup
  {
    hide EntryTrigger, ExpiryMinutes;
  }

  lemma AttemptBudget(ctx: Context, index: nat)
    requires ctx.Valid() && 1 <= index <= 3
    ensures var r := TryBreakout(ctx, index);
      r.Ok? && r.value.Found? ==> Within(r.value.match_.points, 25.0) && r.value.match_.setup == BreakoutRetest
  {
    hide RetestPoints, BreakoutConfirmed, RetestConfirmed, BreakoutLevel, Confirm, Within;
    if |ctx.s| >= index + 21 {
      var d, s0, b := ctx.direction, ctx.s[0], ctx.s[index];
      var level := BreakoutLevel(ctx.s[index + 1..index + 21], d);
      if b.indicator.atr.Some? && s0.indicator.atr.Some? && b.indicator.volumeRatio.Some? {
        var volume := b.indicator.volumeRatio.value;
        RetestBudget(s0.candle, b.candle, level, s0.indicator.atr.value, b.indicator.atr.value, volume, d);
        ConfirmKeepsPoints(BreakoutRetest, ctx, b.candle.closeTime,
                           RetestPoints(s0.candle, b.candle, level, s0.indicator.atr.value, b.indicator.atr.value, volume, d),
                           Some(level), None, None, None, Some(b.candle.closeTime));
      }
    }
  }

  lemma {:induction false} SearchBudget(ctx: Context, index: nat, seen: bool)
    requires ctx.Valid() && 1 <= index <= 4
    ensures var r := SearchBreakout(ctx, index, seen); r.Ok? ==> Within(r.value.points, 25.0) && r.value.setup == BreakoutRetest
    decreases 4 - index
  {
    hide TryBreakout, Within;
    if index < 4 {
      AttemptBudget(ctx, index);
      var attempt := TryBreakout(ctx, index);
      if attempt.Ok? && attempt.value.Skip? { SearchBudget(ctx, index + 1, seen || attempt.value.breakout); }
    }
  }

  lemma PullbackEvaluationBudget(ctx: Context)
    requires ctx.Valid()
    ensures var r := EvaluateTrendPullback(ctx); r.Ok? ==> Within(r.value.points, 25.0) && r.value.setup == TrendPullback
  {
    hide PullbackPoints, PullbackSequence, PullbackZone, PullbackRecovery, Confirm, MaxHigh, MinLow, Within;
    var d, c0, c1, i0, i1 := ctx.direction, ctx.s[0].candle, ctx.s[1].candle, ctx.s[0].indicator, ctx.s[1].indicator;
    if i0.rsi.Some? && i1.rsi.Some? && i0.histogram.Some? && i1.histogram.Some? && i1.ema20.Some? && i1.ema50.Some? && i1.atr.Some? && i0.atr.Some? {
      PullbackBudget(c0, c1, i1.ema20.value, i1.ema50.value, i0.atr.value, i1.atr.value, i0.rsi.value, i1.rsi.value, i0.histogram.value, i1.histogram.value, d);
      ConfirmKeepsPoints(TrendPullback, ctx, c0.closeTime,
                         PullbackPoints(c0, c1, i1.ema20.value, i1.ema50.value, i0.atr.value, i1.atr.value, i0.rsi.value, i1.rsi.value, i0.histogram.value, i1.histogram.value, d),
                         None, None, Some((MinLow(ctx.s[..4]), MaxHigh(ctx.s[..4]))), None, None);
    }
  }

  lemma RejectionEvaluationBudget(ctx: Context)
    requires ctx.Valid()
    ensures var r := EvaluateEmaRejection(ctx); r.Ok? ==> Within(r.value.points, 25.0) && r.value.setup == EmaRejection
  {
    hide RejectionPoints, RejectionValid, SelectedEma, ClosePosition, Body, Confirm, Within;
    var d, s0, c0, i0 := ctx.direction, ctx.s[0], ctx.s[0].candle, ctx.s[0].indicator;
    if i0.atr.Some? && SelectedEma(s0, d).Ok? && Body(c0) > 0.0 && i0.volumeRatio.Some? && ClosePosition(c0, d).Ok? {
      var selected, position := SelectedEma(s0, d).value, ClosePosition(c0, d).value;
      RejectionBudget(c0, selected, i0.atr.value, position, i0.volumeRatio.value, d);
      ConfirmKeepsPoints(EmaRejection, ctx, c0.closeTime, RejectionPoints(c0, selected, i0.atr.value, position, i0.volumeRatio.value, d),
                         None, Some(selected), None, None, None);
    }
  }

  lemma SweepEvaluationBudget(ctx: Context)
    requires ctx.Valid()
    ensures var r := EvaluateLiquiditySweep(ctx); r.Ok? ==> Within(r.value.points, 25.0) && r.value.setup == LiquiditySweepReversal
  {
    hide SweepPoints, SweepValid, SweepLevel, Body, Confirm, Within;
    var d, c0, i0 := ctx.direction, ctx.s[0].candle, ctx.s[0].indicator;
    if i0.atr.Some? && Body(c0) > 0.0 && i0.volumeRatio.Some? {
      SweepBudget(c0, SweepLevel(ctx), i0.atr.value, i0.volumeRatio.value, d);
      ConfirmKeepsPoints(LiquiditySweepReversal, ctx, c0.closeTime, SweepPoints(c0, SweepLevel(ctx), i0.atr.value, i0.volumeRatio.value, d),
                         Some(SweepLevel(ctx)), None, None, None, None);
    }
  }

  lemma ContinuationEvaluationBudget(ctx: Context)
    requires ctx.Valid()
    ensures var r := EvaluateContinuation(ctx); r.Ok? ==> Within(r.value.points, 25.0) && r.value.setup == ContinuationSetup
  {
    hide ContinuationPoints, ContinuationBreak, AllCompressed, MaxHigh, MinLow, Confirm, Within;
    var d, s0 := ctx.direction, ctx.s[0];
    var high, low := MaxHigh(ctx.s[1..4]), MinLow(ctx.s[1..4]);
    var boundary := Boundary(high, low, d);
    if s0.indicator.atr.Some? && s0.indicator.volumeRatio.Some? {
      ContinuationBudget(s0.candle, high - low, boundary, s0.indicator.atr.value, s0.indicator.volumeRatio.value, d);
      ConfirmKeepsPoints(ContinuationSetup, ctx, s0.candle.closeTime,
                         ContinuationPoints(s0.candle, high - low, boundary, s0.indicator.atr.value, s0.indicator.volumeRatio.value, d),
                         Some(boundary), None, None, Some((high, low)), None);
    }
  }

  /** Whatever the setup, an accepted match is of that setup and worth between 0 and 25 points. */
  lemma SetupPointsWithinBudget(setup: Setup, ctx: Context)
    requires ctx.Valid()
    ensures var r := Evaluate(setup, ctx); r.Ok? ==> Within(r.value.points, 25.0) && r.value.setup == setup
  {
    hide EvaluateTrendPullback, SearchBreakout, EvaluateEmaRejection, EvaluateLiquiditySweep, EvaluateContinuation, Within;
    match setup
    case TrendPullback => PullbackEvaluationBudget(ctx);
    case BreakoutRetest => SearchBudget(ctx, 1, false);
    case EmaRejection => RejectionEvaluationBudget(ctx);
    case LiquiditySweepReversal => SweepEvaluationBudget(ctx);
    case ContinuationSetup => ContinuationEvaluationBudget(ctx);
  }

  // ---------------------------------------------------------------- score components

  lemma TrendBudget(h0: Frame, h3: Frame, d: Direction)
    requires h0.Valid()
    ensures var r := TrendPoints(h0, h3, d); r.Ok? ==> Within(r.value, 20.0)
  {
    hide NUp, Ratio, Margin, RsiMargin, Abs;
    if TrendPoints(h0, h3, d).Ok? {
      var i, atr := h0.indicator, h0.indicator.atr.value;
      NUpIsUnit(Ratio(Abs(i.ema20.value - i.ema50.value), atr), 0.25, 1.0);
      NUpIsUnit(Ratio(Margin(i.ema50.value, h3.indicator.ema50.value, d), atr), 0.0, 0.75);
      NUpIsUnit(Ratio(Margin(h0.candle.close, i.ema200.value, d), atr), 0.0, 3.0);
      NUpIsUnit(RsiMargin(i.rsi.value, d), 5.0, 15.0);
    }
  }

  lemma EntryBudget(e0: Frame, trigger: real, d: Direction)
    requires e0.Valid()
    ensures var r := EntryPoints(e0, trigger, d); r.Ok? ==> Within(r.value, 20.0)
  {
    hide NUp, NDown, Ratio, Margin, ClosePosition, DirectedHistogram, Abs;
    if EntryPoints(e0, trigger, d).Ok? {
      var i, atr := e0.indicator, e0.indicator.atr.value;
      NUpIsUnit(Ratio(Margin(e0.candle.close, trigger, d), atr), 0.0, 0.30);
      NUpIsUnit(ClosePosition(e0.candle, d).value, 0.65, 0.90);
      NUpIsUnit(i.volumeRatio.value, 1.10, 2.0);
      NUpIsUnit(Ratio(DirectedHistogram(i.histogram.value, d), atr), 0.0, 0.10);
      NDownIsUnit(Ratio(Abs(Margin(e0.candle.close, i.ema20.value, d)), atr), 0.25, 0.75);
    }
  }

  lemma MomentumBudget(s0: Frame, s1: Frame, e0: Frame, d: Direction)
    requires s0.Valid() && e0.Valid()
    ensures var r := MomentumPoints(s0, s1, e0, d); r.Ok? ==> Within(r.value, 15.0)
  {
    hide NUp, NTarget, Ratio, Margin, DirectedHistogram;
    if MomentumPoints(s0, s1, e0, d).Ok? {
      var i, atr := s0.indicator, s0.indicator.atr.value;
      NTargetIsUnit(i.rsi.value, if d == Long then 60.0 else 40.0, 15.0);
      NUpIsUnit(Ratio(DirectedHistogram(i.histogram.value, d), atr), 0.0, 0.10);
      NUpIsUnit(Ratio(Margin(i.histogram.value, s1.indicator.histogram.value, d), atr), 0.0, 0.10);
      NUpIsUnit(Ratio(DirectedHistogram(e0.indicator.histogram.value, d), e0.indicator.atr.value), 0.0, 0.10);
    }
  }

  lemma VotesBudget(s0: Frame, e0: Frame, d: Direction)
    ensures var r := Votes(s0, e0, d); r.Ok? ==> Within(r.value, 6.0)
  {
    hide Margin, DirectedHistogram;
  }

  lemma ShareBudget(x: real, y: real, z: real)
    requires Within(x, 1.0) && Within(y, 1.0) && Within(z, 1.0)
    ensures Within((x + y + z) / 3.0, 1.0) && Within(5.0 * (x + y + z) / 3.0, 5.0)
  {
  }

  lemma CompletenessBudget(counts: (nat, nat, nat))
    ensures Within(Completeness(counts), 1.0)
  {
  }

  function Total(components: seq<real>): real {
    if components == [] then 0.0 else Total(components[..|components| - 1]) + components[|components| - 1]
  }

  lemma TotalAppend(components: seq<real>, last: real)
    ensures Total(components + [last]) == Total(components) + last
  {
    assert (components + [last])[..|components|] == components;
  }

  lemma TotalOfSeven(a: real, b: real, c: real, d: real, e: real, f: real, g: real)
    ensures Total([a, b, c, d, e, f, g]) == a + b + c + d + e + f + g
  {
    TotalAppend([], a);
    TotalAppend([a], b);
    TotalAppend([a, b], c);
    TotalAppend([a, b, c], d);
    TotalAppend([a, b, c, d], e);
    TotalAppend([a, b, c, d, e], f);
    TotalAppend([a, b, c, d, e, f], g);
    assert [] + [a] == [a] && [a] + [b] == [a, b] && [a, b] + [c] == [a, b, c] && [a, b, c] + [d] == [a, b, c, d];
    assert [a, b, c, d] + [e] == [a, b, c, d, e] && [a, b, c, d, e] + [f] == [a, b, c, d, e, f];
    assert [a, b, c, d, e, f] + [g] == [a, b, c, d, e, f, g];
    hide Total;
  }

  /** Every component within its share, in the order trend, setup, entry, momentum, volume, liquidity, freshness. */
  predicate WithinShares(c: seq<real>) {
    && |c| == 7 && Within(c[0], 20.0) && Within(c[1], 25.0) && Within(c[2], 20.0) && Within(c[3], 15.0)
    && Within(c[4], 10.0) && Within(c[5], 5.0) && Within(c[6], 5.0)
  }

  /** The score a match earns before the cap: the plain rounded sum of its components. */
  function Earned(s: Score): int { RoundHalfUp(Total(s.components)) }

  predicate Capped(s: Score, entryReady: bool) { !entryReady || 60 <= s.confidence <= 69 }

  lemma CombineWithinShares(
    trend: real, setupPoints: real, entry: real, momentum: real, volume: real, liquidity: real,
    freshness: (real, real, real), completeness: real, votes: real, entryReady: bool)
    requires Within(trend, 20.0) && Within(setupPoints, 25.0) && Within(entry, 20.0) && Within(momentum, 15.0)
    requires Within(volume, 10.0) && Within(liquidity, 5.0) && Within(completeness, 1.0) && Within(votes, 6.0)
    requires Within(freshness.0, 1.0) && Within(freshness.1, 1.0) && Within(freshness.2, 1.0)
    ensures var s := Combine(trend, setupPoints, entry, momentum, volume, liquidity, freshness, completeness, votes, entryReady);
      && WithinShares(s.components) && 0 <= Earned(s) <= 100 && 0 <= s.confidence <= 100
      && s.score == (if Capped(s, entryReady) && Earned(s) > 84 then 84 else Earned(s)) && s.grade == GradeOf(s.score)
  {
    ShareBudget(freshness.0, freshness.1, freshness.2);
    var recency := 5.0 * (freshness.0 + freshness.1 + freshness.2) / 3.0;
    TotalOfSeven(trend, setupPoints, entry, momentum, volume, liquidity, recency);
    hide Total, GradeOf;
  }

  /** The score is the rounded sum of the seven components, each within its share: neither clamp ever bites, and the
      only thing that lowers a score is the cap for unready or mid-confidence matches. */
  lemma ScoreIsTheRoundedSum(ctx: Context, m: Match, entryReady: bool)
    requires ctx.Valid() && Within(m.points, 25.0)
    requires Within(ctx.freshness.0, 1.0) && Within(ctx.freshness.1, 1.0) && Within(ctx.freshness.2, 1.0)
    ensures var r := ScoreOf(ctx, m, entryReady); r.Ok? ==>
      && WithinShares(r.value.components) && 0 <= Earned(r.value) <= 100 && 0 <= r.value.confidence <= 100
      && r.value.score == (if Capped(r.value, entryReady) && Earned(r.value) > 84 then 84 else Earned(r.value))
      && r.value.grade == GradeOf(r.value.score)
  {
    hide TrendPoints, EntryPoints, MomentumPoints, Votes, Combine, Completeness, NUp, WithinShares, Earned, Capped, GradeOf;
    var d, s0, e0 := ctx.direction, ctx.s[0], ctx.e[0];
    TrendBudget(ctx.h[0], ctx.h[3], d);
    EntryBudget(e0, m.trigger, d);
    MomentumBudget(s0, ctx.s[1], e0, d);
    VotesBudget(s0, e0, d);
    CompletenessBudget(ctx.counts);
    if ScoreOf(ctx, m, entryReady).Ok? {
      NUpIsUnit(s0.indicator.volumeRatio.value, MinimumVolume(m.setup), 2.50);
      NUpIsUnit(e0.indicator.volumeRatio.value, 1.10, 2.50);
      var volume := 4.0 * NUp(s0.indicator.volumeRatio.value, MinimumVolume(m.setup), 2.50) + 6.0 * NUp(e0.indicator.volumeRatio.value, 1.10, 2.50);
      var liquidity := 3.0 * Clamp(ctx.quoteLog / 2.0, 0.0, 1.0) + 2.0 * Clamp((10.0 - ctx.spreadBps) / 10.0, 0.0, 1.0);
      CombineWithinShares(TrendPoints(ctx.h[0], ctx.h[3], d).value, m.points, EntryPoints(e0, m.trigger, d).value,
                          MomentumPoints(s0, ctx.s[1], e0, d).value, volume, liquidity, ctx.freshness, Completeness(ctx.counts),
                          Votes(s0, e0, d).value, entryReady);
    }
  }

  /** A judged match qualifies if and only if its entry rule holds, its confidence is at least 70 and its components
      round to at least 85; the cap and the separate grade test add nothing. Below 60 or 80 it is rejected. */
  lemma QualifiedExactlyWhen(ctx: Context, m: Match, now: int)
    requires ctx.Valid() && Within(m.points, 25.0)
    requires Within(ctx.freshness.0, 1.0) && Within(ctx.freshness.1, 1.0) && Within(ctx.freshness.2, 1.0)
    ensures var r := Judge(ctx, m, now); r.Ok? ==>
      && (r.value.lifecycle == Qualified <==> r.value.entryReady && r.value.score.confidence >= 70 && Earned(r.value.score) >= 85)
      && (r.value.lifecycle == Rejected <==> r.value.score.confidence < 60 || Earned(r.value.score) < 80)
      && (r.value.entryReady <==> m.confirmedAt < ctx.e[0].candle.closeTime && now < m.expiresAt && Entered(ctx.e, ctx.direction, m.trigger))
      && (r.value.lifecycle == Qualified ==>
            if ctx.direction == Long then ctx.e[0].candle.close > m.trigger else ctx.e[0].candle.close < m.trigger)
  {
    ReadyExactlyWhen(ctx, m, now);
    hide ScoreOf, SharedEntry, Earned, WithinShares, Entered;
    ScoreIsTheRoundedSum(ctx, m, true);
    ScoreIsTheRoundedSum(ctx, m, false);
  }
}
