/** What a match is worth, written in candle and indicator fields: the points of its setup, the seven components of its score
    and its confidence (app/services/scanner_setups.py, app/services/scanner_scoring.py). */
module StrategyScores {
  import opened Trading
  import opened Strategy
  import opened StrategyRules

  /** How far `x` has come from `none` to `full`, between 0 and 1, whichever of the two is larger. */
  function Share(x: real, none: real, full: real): real
    requires none != full
  {
    var way := (x - none) / (full - none);
    if way <= 0.0 then 0.0 else if way >= 1.0 then 1.0 else way
  }

  lemma QuotientOrder(x: real, y: real)
    requires y > 0.0
    ensures x <= 0.0 <==> x / y <= 0.0
    ensures x >= y <==> x / y >= 1.0
  {
    assert x == (x / y) * y;
  }

  lemma UpIsShare(x: real, none: real, full: real)
    requires none < full
    ensures NUp(x, none, full) == Share(x, none, full)
  {
    QuotientOrder(x - none, full - none);
  }

  lemma QuotientsAdd(a: real, b: real, w: real)
    requires w > 0.0
    ensures a / w + b / w == (a + b) / w && (-a) / (-w) == a / w && w / w == 1.0
  {
  }

  lemma DownIsShare(x: real, full: real, none: real)
    requires full < none
    ensures NDown(x, full, none) == Share(x, none, full)
  {
    QuotientOrder(none - x, none - full);
    QuotientsAdd(x - full, none - x, none - full);
    QuotientsAdd(none - x, 0.0, none - full);
    assert x - none == -(none - x) && full - none == -(none - full);
  }

  /** The difference, counted positive in the direction. */
  function Gain(now: real, before: real, d: Direction): real { if d == Long then now - before else before - now }

  /** Distance of a price from the zone between two averages. */
  function Outside(x: real, a: real, b: real): real {
    var low, high := if a < b then a else b, if a < b then b else a;
    if x < low then low - x else if x > high then x - high else 0.0
  }

  function Per(x: real, y: real): real { if y == 0.0 then 0.0 else x / y }

  /** The losing end of the candle, and the wick there. */
  function End(c: Candle, d: Direction): real { if d == Long then c.low else c.high }
  function Tail(c: Candle, d: Direction): real { if d == Long then Min(c.open, c.close) - c.low else c.high - Max(c.open, c.close) }

  // ---------------------------------------------------------------- points of the setups

  function PullbackWorth(c0: Candle, c1: Candle, i0: Indicator, i1: Indicator, d: Direction): real {
    8.75 * Share(Per(Outside(c1.close, V(i1.ema20), V(i1.ema50)), V(i1.atr)), 0.25, 0.0)
    + 6.25 * Share(Per(Abs(c0.close - c0.open), V(i0.atr)), 0.10, 1.0)
    + 5.0 * Share(Gain(V(i0.rsi), V(i1.rsi), d), 0.0, 10.0)
    + 5.0 * Share(Per(Gain(V(i0.histogram), V(i1.histogram), d), V(i0.atr)), 0.0, 0.10)
  }

  lemma PullbackIsWorth(ctx: Context)
    requires ctx.Valid()
    ensures var r := EvaluateTrendPullback(ctx);
      r.Ok? ==> r.value.points == PullbackWorth(ctx.s[0].candle, ctx.s[1].candle, ctx.s[0].indicator, ctx.s[1].indicator, ctx.direction)
  {
    hide NUp, NDown, Share, EntryTrigger, PullbackSequence, PullbackZone, PullbackRecovery, MaxHigh, MinLow;
    var c0, c1, i0, i1, d := ctx.s[0].candle, ctx.s[1].candle, ctx.s[0].indicator, ctx.s[1].indicator, ctx.direction;
    DownIsShare(Per(Outside(c1.close, V(i1.ema20), V(i1.ema50)), V(i1.atr)), 0.0, 0.25);
    UpIsShare(Per(Abs(c0.close - c0.open), V(i0.atr)), 0.10, 1.0);
    UpIsShare(Gain(V(i0.rsi), V(i1.rsi), d), 0.0, 10.0);
    UpIsShare(Per(Gain(V(i0.histogram), V(i1.histogram), d), V(i0.atr)), 0.0, 0.10);
    assert ZoneDistance(c1.close, V(i1.ema20), V(i1.ema50)) == Outside(c1.close, V(i1.ema20), V(i1.ema50));
    hide ZoneDistance, Outside;
  }

  function RetestWorth(c0: Candle, i0: Indicator, b: Frame, level: real, d: Direction): real {
    6.25 * Share(Per(Gain(b.candle.close, level, d), V(b.indicator.atr)), 0.10, 0.40)
    + 7.50 * Share(Per(Abs(End(c0, d) - level), V(i0.atr)), 0.20, 0.0)
    + 6.25 * Share(Per(Gain(c0.close, level, d), V(i0.atr)), 0.05, 0.40)
    + 5.0 * Share(V(b.indicator.volumeRatio), 1.50, 2.50)
  }

  lemma RetestIsWorth(ctx: Context, i: nat)
    requires ctx.Valid() && 1 <= i <= 3
    ensures var r := TryBreakout(ctx, i);
      r.Ok? && r.value.Found? ==>
        r.value.match_.points == RetestWorth(ctx.s[0].candle, ctx.s[0].indicator, ctx.s[i], V(r.value.match_.level), ctx.direction)
  {
    hide NUp, NDown, Share, EntryTrigger, BreakoutConfirmed, RetestConfirmed, BreakoutLevel;
    if |ctx.s| >= i + 21 {
      var c0, i0, b, d := ctx.s[0].candle, ctx.s[0].indicator, ctx.s[i], ctx.direction;
      var level := BreakoutLevel(ctx.s[i + 1..i + 21], d);
      UpIsShare(Per(Gain(b.candle.close, level, d), V(b.indicator.atr)), 0.10, 0.40);
      DownIsShare(Per(Abs(End(c0, d) - level), V(i0.atr)), 0.0, 0.20);
      UpIsShare(Per(Gain(c0.close, level, d), V(i0.atr)), 0.05, 0.40);
      UpIsShare(V(b.indicator.volumeRatio), 1.50, 2.50);
    }
  }

  function RejectionWorth(c0: Candle, i0: Indicator, selected: real, d: Direction): real {
    7.50 * Share(Per(Tail(c0, d), Abs(c0.close - c0.open)), 1.50, 4.0)
    + 7.50 * Share(Per(Abs(End(c0, d) - selected), V(i0.atr)), 0.20, 0.0)
    + 6.25 * Share(Place(c0, d), 0.70, 0.90)
    + 3.75 * Share(V(i0.volumeRatio), 1.0, 2.50)
  }

  lemma RejectionIsWorth(ctx: Context)
    requires ctx.Valid()
    ensures var r := EvaluateEmaRejection(ctx);
      r.Ok? ==> r.value.points == RejectionWorth(ctx.s[0].candle, ctx.s[0].indicator, V(r.value.selectedEma), ctx.direction)
  {
    hide NUp, NDown, Share, EntryTrigger, RejectionValid, SelectedEma, ClosePosition, Place;
    var c0, i0, d := ctx.s[0].candle, ctx.s[0].indicator, ctx.direction;
    PlaceIsPosition(c0, d);
    if SelectedEma(ctx.s[0], d).Ok? {
      var selected := SelectedEma(ctx.s[0], d).value;
      UpIsShare(Per(Tail(c0, d), Abs(c0.close - c0.open)), 1.50, 4.0);
      DownIsShare(Per(Abs(End(c0, d) - selected), V(i0.atr)), 0.0, 0.20);
      UpIsShare(Place(c0, d), 0.70, 0.90);
      UpIsShare(V(i0.volumeRatio), 1.0, 2.50);
    }
  }

  function SweepWorth(c0: Candle, i0: Indicator, level: real, d: Direction): real {
    6.25 * (Share(Per(Gain(level, End(c0, d), d), V(i0.atr)), 0.05, 0.40)
            + Share(Per(Gain(c0.close, level, d), V(i0.atr)), 0.05, 0.40)
            + Share(Per(Tail(c0, d), Abs(c0.close - c0.open)), 1.50, 4.0)
            + Share(V(i0.volumeRatio), 1.20, 2.50))
  }

  lemma SweepIsWorth(ctx: Context)
    requires ctx.Valid()
    ensures var r := EvaluateLiquiditySweep(ctx);
      r.Ok? ==> r.value.points == SweepWorth(ctx.s[0].candle, ctx.s[0].indicator, V(r.value.level), ctx.direction)
  {
    hide NUp, NDown, Share, EntryTrigger, SweepValid, SweepLevel;
    var c0, i0, d, level := ctx.s[0].candle, ctx.s[0].indicator, ctx.direction, SweepLevel(ctx);
    UpIsShare(Per(Gain(level, End(c0, d), d), V(i0.atr)), 0.05, 0.40);
    UpIsShare(Per(Gain(c0.close, level, d), V(i0.atr)), 0.05, 0.40);
    UpIsShare(Per(Tail(c0, d), Abs(c0.close - c0.open)), 1.50, 4.0);
    UpIsShare(V(i0.volumeRatio), 1.20, 2.50);
  }

  function ContinuationWorth(c0: Candle, i0: Indicator, high: real, low: real, d: Direction): real {
    6.25 * (Share(Per(high - low, V(i0.atr)), 1.50, 0.75)
            + Share(Per(Gain(c0.close, if d == Long then high else low, d), V(i0.atr)), 0.05, 0.40)
            + Share(Per(Abs(c0.close - c0.open), V(i0.atr)), 0.40, 1.0)
            + Share(V(i0.volumeRatio), 1.20, 2.50))
  }

  lemma ContinuationIsWorth(ctx: Context)
    requires ctx.Valid()
    ensures var r := EvaluateContinuation(ctx);
      r.Ok? ==> r.value.evidence.compression.Some?
                && r.value.points == ContinuationWorth(ctx.s[0].candle, ctx.s[0].indicator, r.value.evidence.compression.value.0,
                                                       r.value.evidence.compression.value.1, ctx.direction)
  {
    hide NUp, NDown, Share, EntryTrigger, ContinuationBreak, AllCompressed, MaxHigh, MinLow;
    var c0, i0, d, high, low := ctx.s[0].candle, ctx.s[0].indicator, ctx.direction, MaxHigh(ctx.s[1..4]), MinLow(ctx.s[1..4]);
    DownIsShare(Per(high - low, V(i0.atr)), 0.75, 1.50);
    UpIsShare(Per(Gain(c0.close, if d == Long then high else low, d), V(i0.atr)), 0.05, 0.40);
    UpIsShare(Per(Abs(c0.close - c0.open), V(i0.atr)), 0.40, 1.0);
    UpIsShare(V(i0.volumeRatio), 1.20, 2.50);
  }

  // ---------------------------------------------------------------- components of the score

  function TrendWorth(h0: Frame, h3: Frame, d: Direction): real {
    var i := h0.indicator;
    7.0 * Share(Per(Abs(V(i.ema20) - V(i.ema50)), V(i.atr)), 0.25, 1.0)
    + 5.0 * Share(Per(Gain(V(i.ema50), V(h3.indicator.ema50), d), V(i.atr)), 0.0, 0.75)
    + 4.0 * Share(Per(Gain(h0.candle.close, V(i.ema200), d), V(i.atr)), 0.0, 3.0)
    + 4.0 * Share(Gain(V(i.rsi), 50.0, d), 5.0, 15.0)
  }

  lemma TrendIsWorth(h0: Frame, h3: Frame, d: Direction)
    requires h0.Valid()
    ensures var r := TrendPoints(h0, h3, d); r.Ok? ==> r.value == TrendWorth(h0, h3, d)
  {
    hide NUp, Share;
    var i := h0.indicator;
    UpIsShare(Per(Abs(V(i.ema20) - V(i.ema50)), V(i.atr)), 0.25, 1.0);
    UpIsShare(Per(Gain(V(i.ema50), V(h3.indicator.ema50), d), V(i.atr)), 0.0, 0.75);
    UpIsShare(Per(Gain(h0.candle.close, V(i.ema200), d), V(i.atr)), 0.0, 3.0);
    UpIsShare(Gain(V(i.rsi), 50.0, d), 5.0, 15.0);
  }

  function EntryWorth(e0: Frame, trigger: real, d: Direction): real {
    var c, i := e0.candle, e0.indicator;
    7.0 * Share(Per(Gain(c.close, trigger, d), V(i.atr)), 0.0, 0.30)
    + 4.0 * Share(Place(c, d), 0.65, 0.90)
    + 4.0 * Share(V(i.volumeRatio), 1.10, 2.0)
    + 3.0 * Share(Per(Gain(V(i.histogram), 0.0, d), V(i.atr)), 0.0, 0.10)
    + 2.0 * Share(Per(Abs(c.close - V(i.ema20)), V(i.atr)), 0.75, 0.25)
  }

  lemma EntryIsWorth(e0: Frame, trigger: real, d: Direction)
    requires e0.Valid()
    ensures var r := EntryPoints(e0, trigger, d); r.Ok? ==> r.value == EntryWorth(e0, trigger, d)
  {
    PlaceIsPosition(e0.candle, d);
    hide NUp, NDown, Share, ClosePosition, Place;
    var c, i := e0.candle, e0.indicator;
    UpIsShare(Per(Gain(c.close, trigger, d), V(i.atr)), 0.0, 0.30);
    UpIsShare(Place(c, d), 0.65, 0.90);
    UpIsShare(V(i.volumeRatio), 1.10, 2.0);
    UpIsShare(Per(Gain(V(i.histogram), 0.0, d), V(i.atr)), 0.0, 0.10);
    DownIsShare(Per(Abs(c.close - V(i.ema20)), V(i.atr)), 0.25, 0.75);
  }

  function MomentumWorth(i0: Indicator, i1: Indicator, e: Indicator, d: Direction): real {
    4.5 * Share(Abs(V(i0.rsi) - (if d == Long then 60.0 else 40.0)), 15.0, 0.0)
    + 4.5 * Share(Per(Gain(V(i0.histogram), 0.0, d), V(i0.atr)), 0.0, 0.10)
    + 3.0 * Share(Per(Gain(V(i0.histogram), V(i1.histogram), d), V(i0.atr)), 0.0, 0.10)
    + 3.0 * Share(Per(Gain(V(e.histogram), 0.0, d), V(e.atr)), 0.0, 0.10)
  }

  lemma TargetIsShare(x: real, target: real, tolerance: real)
    requires tolerance > 0.0
    ensures NTarget(x, target, tolerance) == Share(Abs(x - target), tolerance, 0.0)
  {
    DownIsShare(Abs(x - target), 0.0, tolerance);
    QuotientOrder(Abs(x - target), tolerance);
  }

  lemma MomentumIsWorth(s0: Frame, s1: Frame, e0: Frame, d: Direction)
    requires s0.Valid() && e0.Valid()
    ensures var r := MomentumPoints(s0, s1, e0, d); r.Ok? ==> r.value == MomentumWorth(s0.indicator, s1.indicator, e0.indicator, d)
  {
    hide NUp, NTarget, Share;
    var i0, i1, e := s0.indicator, s1.indicator, e0.indicator;
    TargetIsShare(V(i0.rsi), if d == Long then 60.0 else 40.0, 15.0);
    UpIsShare(Per(Gain(V(i0.histogram), 0.0, d), V(i0.atr)), 0.0, 0.10);
    UpIsShare(Per(Gain(V(i0.histogram), V(i1.histogram), d), V(i0.atr)), 0.0, 0.10);
    UpIsShare(Per(Gain(V(e.histogram), 0.0, d), V(e.atr)), 0.0, 0.10);
  }

  function LeastVolume(setup: Setup): real {
    match setup
    case TrendPullback => 0.80
    case BreakoutRetest => 0.80
    case EmaRejection => 1.00
    case LiquiditySweepReversal => 1.20
    case ContinuationSetup => 1.20
  }

  function VolumeWorth(setup: Setup, quarter: real, five: real): real {
    4.0 * Share(quarter, LeastVolume(setup), 2.50) + 6.0 * Share(five, 1.10, 2.50)
  }

  function LiquidityWorth(quoteLog: real, spreadBps: real): real {
    3.0 * Share(quoteLog, 0.0, 2.0) + 2.0 * Share(spreadBps, 10.0, 0.0)
  }

  lemma LiquidityIsWorth(quoteLog: real, spreadBps: real)
    ensures 3.0 * Clamp(quoteLog / 2.0, 0.0, 1.0) + 2.0 * Clamp((10.0 - spreadBps) / 10.0, 0.0, 1.0) == LiquidityWorth(quoteLog, spreadBps)
  {
    assert (spreadBps - 10.0) / (0.0 - 10.0) == (10.0 - spreadBps) / 10.0;
  }

  /** Share of 250 candles held, averaged over the three intervals. */
  function Filled(counts: (nat, nat, nat)): real {
    ((if counts.0 >= 250 then 1.0 else counts.0 as real / 250.0) + (if counts.1 >= 250 then 1.0 else counts.1 as real / 250.0)
     + (if counts.2 >= 250 then 1.0 else counts.2 as real / 250.0)) / 3.0
  }

  lemma CompletenessIsFilled(counts: (nat, nat, nat))
    ensures Completeness(counts) == Filled(counts)
  {
  }

  /** Three votes are given; close beyond its average and both histograms in the direction earn the others. */
  function VoteCount(s0: Frame, e0: Frame, d: Direction): real {
    3.0 + (if Gain(s0.candle.close, V(s0.indicator.ema20), d) > 0.0 then 1.0 else 0.0)
    + (if Gain(V(s0.indicator.histogram), 0.0, d) > 0.0 then 1.0 else 0.0)
    + (if Gain(V(e0.indicator.histogram), 0.0, d) > 0.0 then 1.0 else 0.0)
  }

  function Mean(f: (real, real, real)): real { (f.0 + f.1 + f.2) / 3.0 }

  /** A+ from 90 on, A from 85, B+ from 80, else REJECT. */
  predicate Graded(s: Score) {
    && (s.grade == APlus <==> s.score >= 90) && (s.grade == A <==> 85 <= s.score < 90)
    && (s.grade == BPlus <==> 80 <= s.score < 85) && (s.grade == Reject <==> s.score < 80)
  }

  /** The seven components, the confidence and the grade of every score, in the fields they are made of. */
  lemma ScoreInFields(ctx: Context, m: Match, entryReady: bool)
    requires ctx.Valid()
    ensures var r := ScoreOf(ctx, m, entryReady); r.Ok? ==>
      var d, s0, e0 := ctx.direction, ctx.s[0], ctx.e[0];
      var liquidity, entry := LiquidityWorth(ctx.quoteLog, ctx.spreadBps), EntryWorth(e0, m.trigger, d);
      && r.value.components == [
           TrendWorth(ctx.h[0], ctx.h[3], d), m.points, entry, MomentumWorth(s0.indicator, ctx.s[1].indicator, e0.indicator, d),
           VolumeWorth(m.setup, V(s0.indicator.volumeRatio), V(e0.indicator.volumeRatio)), liquidity, 5.0 * Mean(ctx.freshness)]
      && r.value.confidence == RoundHalfUp(Clamp(
           25.0 * Filled(ctx.counts) + 20.0 * Mean(ctx.freshness) + 25.0 * (0.60 * (m.points / 25.0) + 0.40 * (entry / 20.0))
           + 20.0 * (VoteCount(s0, e0, d) / 6.0) + 10.0 * (liquidity / 5.0), 0.0, 100.0))
      && Graded(r.value)
  {
    hide NUp, Share, TrendPoints, EntryPoints, MomentumPoints, TrendWorth, EntryWorth, MomentumWorth, Completeness, Filled, Clamp, RoundHalfUp, LiquidityWorth;
    var d, s0, e0 := ctx.direction, ctx.s[0], ctx.e[0];
    TrendIsWorth(ctx.h[0], ctx.h[3], d);
    EntryIsWorth(e0, m.trigger, d);
    MomentumIsWorth(s0, ctx.s[1], e0, d);
    UpIsShare(V(s0.indicator.volumeRatio), LeastVolume(m.setup), 2.50);
    UpIsShare(V(e0.indicator.volumeRatio), 1.10, 2.50);
    LiquidityIsWorth(ctx.quoteLog, ctx.spreadBps);
    CompletenessIsFilled(ctx.counts);
    VotesAreCounted(s0, e0, d);
    hide Votes, VoteCount, LeastVolume, MinimumVolume;
    LeastIsMinimum(m.setup);
  }

  lemma LeastIsMinimum(setup: Setup)
    ensures LeastVolume(setup) == MinimumVolume(setup)
  {
  }

  lemma VotesAreCounted(s0: Frame, e0: Frame, d: Direction)
    ensures Votes(s0, e0, d).Ok? ==> Votes(s0, e0, d).value == VoteCount(s0, e0, d)
  {
  }
}
