/** What an active refresh decides about one stored candidate (app/services/scanner.py): the strategy's regime, gates,
    invalidation and score on fresh frames, joined with the candidate's expiry, become the outcome that the scanner's
    long-lived state applies. */
module ActiveRefresh {
  import opened Trading
  import opened Strategy
  import opened StrategySymmetry
  import opened SymbolScan
  import T = ScannerTombstones

  /** A stored candidate: what invalidation reads, the match its score is recomputed from, and the 15-minute frames of its
      discovery, if its context is still held. */
  datatype Stored = Stored(
    candidate: Candidate, match_: Match, lifecycle: T.Lifecycle, qualificationExpires: Option<int>, frames: Option<seq<Frame>>)
  {
    predicate Valid() {
      frames.Some? ==> |frames.value| >= 4 && frames.value[0].Valid() && frames.value[1].Valid() && frames.value[2].Valid() && frames.value[3].Valid()
    }
  }

  /** The freshly loaded frames, with the structure of the hourly candles. */
  datatype Inputs = Inputs(market: Context, structure: Structure)

  predicate TrendCode(code: Code) { code == TrendSideways || code == TrendMixed }

  predicate ExpiryReached(c: Stored, now: int) {
    var expiry := if c.lifecycle == T.Qualified then c.qualificationExpires else Some(c.match_.expiresAt);
    expiry.Some? && now >= expiry.value
  }

  /** After a failure of data: an expired candidate still ends, any other is left as it was. */
  function Lapse(c: Stored, now: int): T.Outcome { if ExpiryReached(c, now) then T.Ended(T.Expired) else T.Failed }

  function Rescored(verdict: Result<Verdict, Code>): T.Outcome {
    if verdict.Err? then T.Failed
    else
      match verdict.value.lifecycle
      case Rejected => T.Ended(T.Rejected)
      case WatchNear => T.Kept(T.WatchNear)
      case Qualified => T.Kept(T.Qualified)
  }

  /** The score recomputed on fresh hourly and 5-minute frames and the 15-minute frames of discovery. */
  function Reassessed(c: Stored, market: Context, now: int): T.Outcome
    requires c.Valid() && market.Valid()
  {
    if c.frames.None? then T.Failed
    else Rescored(Judge(market.(direction := c.candidate.direction, s := c.frames.value), c.match_, now))
  }

  /** The outcome on frames of the candidate's own trend that the volatility gates admit. */
  function AdmittedOutcome(c: Stored, market: Context, now: int): T.Outcome
    requires c.Valid() && market.Valid()
  {
    var struck := Invalidated(c.candidate, market.s[0], market.e[0]);
    if struck.Err? then Lapse(c, now)
    else if struck.value then T.Ended(T.Invalidated)
    else if ExpiryReached(c, now) then T.Ended(T.Expired)
    else if c.lifecycle == T.Qualified then T.Kept(T.Qualified)
    else Reassessed(c, market, now)
  }

  function RefreshOutcome(c: Stored, inputs: Option<Inputs>, now: int): T.Outcome
    requires c.Valid() && (inputs.Some? ==> inputs.value.market.Valid())
  {
    if inputs.None? then Lapse(c, now)
    else
      var market := inputs.value.market;
      var regime := Regime(market.h, inputs.value.structure);
      if regime.Err? then (if TrendCode(regime.error) then T.Ended(T.Invalidated) else Lapse(c, now))
      else if regime.value != c.candidate.direction then T.Ended(T.Invalidated)
      else if Gates(market.s[0], market.e[0]).Err? then Lapse(c, now)
      else AdmittedOutcome(c, market, now)
  }

  /** What loading answers: alignment that refuses a series is a failure of data like any other. */
  function InputsOf(feed: Option<Feed>, now: int): (r: Option<Inputs>)
    ensures r.Some? ==> r.value.market.Valid()
  {
    if feed.None? || Load(feed.value, now).Err? then None
    else
      LoadedIsAligned(feed.value, now);
      Some(Inputs(Load(feed.value, now).value, feed.value.hour.points.structure))
  }

  /** The outcome from the candle and indicator snapshots; None is an exchange that did not answer. */
  function RefreshFrom(c: Stored, feed: Option<Feed>, now: int): T.Outcome
    requires c.Valid()
  {
    RefreshOutcome(c, InputsOf(feed, now), now)
  }

  /** One candidate's turn of the refresh loop: load, decide, then let the scanner's state apply the outcome. */
  method RefreshCandidate(service: T.ScannerService, id: string, c: Stored, feed: Option<Feed>, now: int)
    requires c.Valid()
    modifies service`candidates, service`contexts, service`tombstones, service`cooldowns
    ensures T.Refreshes(old(service.Contents()), id, RefreshFrom(c, feed, now), now, service.limits, service.Contents())
  {
    hide T.Refreshes, Regime, Gates, Invalidated, Judge, InputsOf;
    var outcome := if ExpiryReached(c, now) then T.Ended(T.Expired) else T.Failed;
    var inputs := InputsOf(feed, now);
    if inputs.Some? {
      var market := inputs.value.market;
      var regime := Regime(market.h, inputs.value.structure);
      if regime == Ok(c.candidate.direction) {
        var gates, struck := Gates(market.s[0], market.e[0]), Invalidated(c.candidate, market.s[0], market.e[0]);
        if gates.Ok? && struck.Ok? {
          if struck.value {
            outcome := T.Ended(T.Invalidated);
          } else if ExpiryReached(c, now) {
            outcome := T.Ended(T.Expired);
          } else if c.lifecycle == T.Qualified {
            outcome := T.Kept(T.Qualified);
          } else if c.frames.Some? {
            outcome := Rescored(Judge(market.(direction := c.candidate.direction, s := c.frames.value), c.match_, now));
          }
        }
      } else if regime.Ok? || TrendCode(regime.error) {
        outcome := T.Ended(T.Invalidated);
      }
    }
    service.Refresh(id, outcome, now);
  }

  // ---------------------------------------------------------------- the refresh and the reflection

  function MirrorStored(c: Stored, k: real): Stored {
    c.(candidate := MirrorCandidate(c.candidate, k), match_ := MirrorMatch(c.match_, k),
       frames := if c.frames.None? then None else Some(MirrorFrames(c.frames.value, k)))
  }

  lemma StoredStaysValid(c: Stored, k: real)
    requires c.Valid()
    ensures MirrorStored(c, k).Valid()
  {
    hide MirrorFrames;
    if c.frames.Some? {
      assert forall i :: 0 <= i < 4 ==> MirrorFrames(c.frames.value, k)[i] == MirrorFrame(c.frames.value[i], k);
    }
  }

  lemma AdmittedReflects(c: Stored, market: Context, now: int, k: real)
    requires c.Valid() && market.Valid() && MirrorStored(c, k).Valid() && MirrorContext(market, k).Valid()
    ensures AdmittedOutcome(MirrorStored(c, k), MirrorContext(market, k), now) == AdmittedOutcome(c, market, now)
  {
    hide Invalidated, Reassessed, MirrorFrames, MirrorContext, MirrorMatch, MirrorCandidate, MirrorFrame;
    ReassessmentReflects(c, market, now, k);
    SetupFramesReflect(market, k);
    EntryFramesReflect(market, k);
    InvalidationReflects(c.candidate, market.s[0], market.e[0], k);
    ExpiryKept(c, now, k);
    DirectionTurns(c, k);
    hide MirrorStored, ExpiryReached;
  }

  /** On loaded frames: the trend decides, or the volatility gates admit both or neither, or admission makes no difference. */
  predicate FramesReflect(c: Stored, market: Context, structure: Structure, now: int, k: real)
    requires c.Valid() && market.Valid()
  {
    || Regime(market.h, structure) != Ok(c.candidate.direction)
    || (Gates(MirrorFrame(market.s[0], k), MirrorFrame(market.e[0], k)).Ok? <==> Gates(market.s[0], market.e[0]).Ok?)
    || AdmittedOutcome(c, market, now) == Lapse(c, now)
  }

  lemma FramesReflectExactlyWhen(c: Stored, market: Context, structure: Structure, now: int, k: real)
    requires c.Valid() && market.Valid()
    ensures MirrorStored(c, k).Valid() && MirrorContext(market, k).Valid()
    ensures RefreshOutcome(MirrorStored(c, k), Some(Inputs(MirrorContext(market, k), MirrorStructure(structure))), now)
            == RefreshOutcome(c, Some(Inputs(market, structure)), now)
            <==> FramesReflect(c, market, structure, now, k)
  {
    hide Regime, Gates, AdmittedOutcome, MirrorFrames, MirrorContext, MirrorStructure, MirrorMatch, MirrorCandidate, MirrorFrame;
    StoredStaysValid(c, k);
    AdmittedReflects(c, market, now, k);
    SetupFramesReflect(market, k);
    EntryFramesReflect(market, k);
    RegimeReflects(market.h, structure, k);
    assert MirrorContext(market, k).h == MirrorFrames(market.h, k) by { HourReflects(market, k); }
    ExpiryKept(c, now, k);
    DirectionTurns(c, k);
    hide MirrorStored, ExpiryReached;
  }

  /** The direction of the loaded frames is never read. */
  lemma RefreshIgnoresDirection(c: Stored, market: Context, d: Direction, structure: Structure, now: int)
    requires c.Valid() && market.Valid()
    ensures market.(direction := d).Valid()
    ensures RefreshOutcome(c, Some(Inputs(market.(direction := d), structure)), now) == RefreshOutcome(c, Some(Inputs(market, structure)), now)
  {
    hide Regime, Gates, Invalidated, Judge;
    if c.frames.Some? {
      assert market.(direction := d).(direction := c.candidate.direction, s := c.frames.value)
             == market.(direction := c.candidate.direction, s := c.frames.value);
    }
  }

  /** A refresh ends, keeps or leaves the reflected candidate exactly as it does the original, if and only if: of loaded
      snapshots, either every high lies below the axis and the frames reflect, or a high does not and the original is itself
      treated as a failure of data; of refused ones, the reflection is treated as one too. */
  lemma RefreshReflectsExactlyWhen(c: Stored, feed: Feed, now: int, k: real)
    requires c.Valid()
    ensures MirrorStored(c, k).Valid() && (Load(feed, now).Ok? ==> Load(feed, now).value.Valid())
    ensures RefreshFrom(MirrorStored(c, k), Some(MirrorFeed(feed, k)), now) == RefreshFrom(c, Some(feed), now)
            <==> if Load(feed, now).Err? then RefreshFrom(MirrorStored(c, k), Some(MirrorFeed(feed, k)), now) == Lapse(c, now)
                 else if FeedBelow(feed, k) then FramesReflect(c, Load(feed, now).value, feed.hour.points.structure, now, k)
                 else RefreshFrom(c, Some(feed), now) == Lapse(c, now)
  {
    hide Load, RefreshOutcome, FramesReflect, FeedBelow, FirstAbove, MirrorContext, MirrorStructure, MirrorFeed;
    StoredStaysValid(c, k);
    if Load(feed, now).Err? {
      RefusedIsLapse(c, now);
    } else {
      LoadedRefreshReflects(c, feed, now, k);
    }
  }

  lemma LoadedRefreshReflects(c: Stored, feed: Feed, now: int, k: real)
    requires c.Valid() && Load(feed, now).Ok?
    ensures MirrorStored(c, k).Valid() && Load(feed, now).value.Valid()
    ensures RefreshFrom(MirrorStored(c, k), Some(MirrorFeed(feed, k)), now) == RefreshFrom(c, Some(feed), now)
            <==> if FeedBelow(feed, k) then FramesReflect(c, Load(feed, now).value, feed.hour.points.structure, now, k)
                 else RefreshFrom(c, Some(feed), now) == Lapse(c, now)
  {
    hide Load, RefreshOutcome, FramesReflect, FeedBelow, FirstAbove, MirrorContext, MirrorStructure, MirrorFeed;
    var market, structure := Load(feed, now).value, feed.hour.points.structure;
    LoadedIsAligned(feed, now);
    StoredStaysValid(c, k);
    LoadReflectsExactlyBelowTheAxis(feed, now, k);
    if FeedBelow(feed, k) {
      StructureTurns(feed, k);
      FramesReflectExactlyWhen(c, market, structure, now, k);
      RefreshIgnoresDirection(MirrorStored(c, k), MirrorContext(market, k), Long, MirrorStructure(structure), now);
    } else {
      RefusedIsLapse(MirrorStored(c, k), now);
      ExpiryKept(c, now, k);
    }
  }

  /** On the market whose reflection falls below zero, a SHORT candidate has lost its trend and ends, while its reflection is
      refused at loading and stays as it was. */
  lemma ReflectedCandidateCanSurvive(c: Stored)
    requires c.Valid() && c.candidate.direction == Short && !ExpiryReached(c, Now)
    ensures RefreshFrom(c, Some(SpikeFeed()), Now) == T.Ended(T.Invalidated)
    ensures MirrorStored(c, 170.0).Valid()
    ensures RefreshFrom(MirrorStored(c, 170.0), Some(MirrorFeed(SpikeFeed(), 170.0)), Now) == T.Failed
  {
    hide Load, Regime, FeedBelow, FirstAbove, SteadySeries, MirrorFeed, AdmittedOutcome;
    ReflectionCanFallBelowZero();
    SpikeLoads();
    LoadReflectsExactlyBelowTheAxis(SpikeFeed(), Now, 170.0);
    SpikeStructure();
    StoredStaysValid(c, 170.0);
    RefusedIsLapse(MirrorStored(c, 170.0), Now);
    ExpiryKept(c, Now, 170.0);
  }

  lemma RefusedIsLapse(c: Stored, now: int)
    requires c.Valid()
    ensures RefreshOutcome(c, None, now) == Lapse(c, now)
  {
  }

  lemma ExpiryKept(c: Stored, now: int, k: real)
    ensures ExpiryReached(MirrorStored(c, k), now) == ExpiryReached(c, now) && Lapse(MirrorStored(c, k), now) == Lapse(c, now)
  {
  }

  lemma DirectionTurns(c: Stored, k: real)
    ensures MirrorStored(c, k).candidate == MirrorCandidate(c.candidate, k) && MirrorStored(c, k).candidate.direction == c.candidate.direction.Opposite()
    ensures MirrorStored(c, k).lifecycle == c.lifecycle
  {
  }

  lemma ReassessmentReflects(c: Stored, market: Context, now: int, k: real)
    requires c.Valid() && market.Valid() && MirrorStored(c, k).Valid() && MirrorContext(market, k).Valid()
    ensures Reassessed(MirrorStored(c, k), MirrorContext(market, k), now) == Reassessed(c, market, now)
  {
    hide Judge, MirrorFrames, MirrorContext;
    if c.frames.Some? {
      RestoredContextReflects(market, c.candidate.direction, c.frames.value, k);
      JudgeReflects(market.(direction := c.candidate.direction, s := c.frames.value), c.match_, now, k);
    }
  }

  lemma HourReflects(market: Context, k: real)
    ensures MirrorContext(market, k).h == MirrorFrames(market.h, k)
  {
  }

  lemma RestoredContextReflects(market: Context, d: Direction, frames: seq<Frame>, k: real)
    ensures MirrorContext(market, k).(direction := d.Opposite(), s := MirrorFrames(frames, k)) == MirrorContext(market.(direction := d, s := frames), k)
  {
  }

  // ---------------------------------------------------------------- the refresh and the scan

  lemma {:induction false} JudgedAreVerdicts(ctx: Context, ms: seq<Match>, now: int)
    requires ctx.Valid() && JudgeAll(ctx, ms, now).Ok?
    ensures forall v :: v in JudgeAll(ctx, ms, now).value ==> Judge(ctx, v.match_, now) == Ok(v)
  {
    hide SharedEntry, ScoreOf, LifecycleOf;
    if ms != [] { JudgedAreVerdicts(ctx, ms[..|ms| - 1], now); }
  }

  lemma DecidedIsJudged(ctx: Context, now: int)
    requires ctx.Valid() && Decide(ctx, now).Ok? && Decide(ctx, now).value.Some?
    ensures var v := Decide(ctx, now).value.value; Judge(ctx, v.match_, now) == Ok(v)
  {
    hide Judge, JudgeAll, Accepted, Best;
    JudgedAreVerdicts(ctx, Accepted(ctx, SetupOrder), now);
    BestIsFirst(JudgeAll(ctx, Accepted(ctx, SetupOrder), now).value);
  }

  lemma InvalidationDecides(c: Candidate, s0: Frame, e0: Frame)
    requires Complete(s0) && Complete(e0)
    ensures Invalidated(c, s0, e0).Ok?
  {
  }

  function StoredLifecycle(l: Lifecycle): T.Lifecycle {
    match l
    case Rejected => T.Rejected
    case WatchNear => T.WatchNear
    case Qualified => T.Qualified
  }

  /** The refresh agrees with the scan: refreshed on the very snapshots that selected it, an unexpired candidate keeps the
      lifecycle the scan gave it, unless they already invalidate it. */
  lemma RefreshAgreesWithScan(c: Stored, feed: Feed, now: int, d: Direction, v: Verdict)
    requires Scan(feed, now) == Ok((d, Some(v))) && v.lifecycle != Rejected
    requires c.candidate.direction == d && c.match_ == v.match_ && c.lifecycle == StoredLifecycle(v.lifecycle)
    requires c.frames == Some(Load(feed, now).value.s) && c.Valid() && !ExpiryReached(c, now)
    ensures var market := Load(feed, now).value;
      |market.s| > 0 && |market.e| > 0 && RefreshFrom(c, Some(feed), now)
            == if Invalidated(c.candidate, market.s[0], market.e[0]) == Ok(true) then T.Ended(T.Invalidated) else T.Kept(c.lifecycle)
  {
    hide Load, Regime, Gates, Invalidated, Judge, Decide, Complete;
    LoadedIsAligned(feed, now);
    var market := Load(feed, now).value;
    var ctx := market.(direction := d);
    assert ctx.Valid() by { AlignedInAnyDirection(market, d); }
    DecidedIsJudged(ctx, now);
    InvalidationDecides(c.candidate, market.s[0], market.e[0]);
    assert market.(direction := d, s := market.s) == ctx;
  }

  /** Whatever happens to its data, a candidate ends only for a reason of its own: a lost trend or an invalidating price on
      loaded frames, its expiry, or - only if it is not qualified yet - a score that fell too low. */
  lemma CandidatesEndForAReason(c: Stored, feed: Option<Feed>, now: int)
    requires c.Valid()
    ensures var outcome := RefreshFrom(c, feed, now);
      && (outcome == T.Ended(T.Rejected) ==> c.lifecycle != T.Qualified && !ExpiryReached(c, now))
      && (outcome == T.Ended(T.Expired) ==> ExpiryReached(c, now))
      && (outcome == T.Failed ==> !ExpiryReached(c, now))
      && (outcome == T.Ended(T.Invalidated) ==> (feed.Some? && Load(feed.value, now).Ok? && OwnReason(c, InputsOf(feed, now).value)))
  {
    hide Load, Regime, Gates, Invalidated, Judge;
  }

  /** The trend is lost, or the price invalidates. */
  predicate OwnReason(c: Stored, inputs: Inputs)
    requires inputs.market.Valid()
  {
    || Regime(inputs.market.h, inputs.structure) != Ok(c.candidate.direction)
    || Invalidated(c.candidate, inputs.market.s[0], inputs.market.e[0]) == Ok(true)
  }

  /** The candidate's time is up: its qualification's when it is qualified and has one, its match's otherwise. */
  predicate TimeIsUp(c: Stored, now: int) {
    if c.lifecycle == T.Qualified then c.qualificationExpires.Some? && c.qualificationExpires.value <= now else c.match_.expiresAt <= now
  }

  /** A refresh, outcome by outcome. On loaded frames whose hourly trend is lost or another, or whose prices invalidate, the
      candidate ends as invalidated; else, and whenever data is missing, it ends as expired exactly when its time is up;
      a qualified one stays so, and only a candidate not yet qualified is scored again. */
  lemma RefreshExactlyWhen(c: Stored, inputs: Option<Inputs>, now: int)
    requires c.Valid() && (inputs.Some? ==> inputs.value.market.Valid())
    ensures var outcome := RefreshOutcome(c, inputs, now);
      var lost := inputs.Some? && (var regime := Regime(inputs.value.market.h, inputs.value.structure);
        regime == Ok(c.candidate.direction.Opposite()) || regime == Err(TrendSideways) || regime == Err(TrendMixed));
      var readable := inputs.Some? && !lost && Regime(inputs.value.market.h, inputs.value.structure).Ok?
        && Gates(inputs.value.market.s[0], inputs.value.market.e[0]).Ok?
        && Invalidated(c.candidate, inputs.value.market.s[0], inputs.value.market.e[0]).Ok?;
      var struck := readable && Invalidated(c.candidate, inputs.value.market.s[0], inputs.value.market.e[0]).value;
      && (outcome == T.Ended(T.Invalidated) <==> lost || struck)
      && (outcome == T.Ended(T.Expired) <==> !lost && !struck && TimeIsUp(c, now))
      && (readable && !struck && !TimeIsUp(c, now) && c.lifecycle == T.Qualified ==> outcome == T.Kept(T.Qualified))
      && (readable && !struck && !TimeIsUp(c, now) && c.lifecycle != T.Qualified ==>
            if c.frames.None? then outcome == T.Failed
            else
              var verdict := Judge(inputs.value.market.(direction := c.candidate.direction, s := c.frames.value), c.match_, now);
              if verdict.Err? then outcome == T.Failed
              else if verdict.value.lifecycle == Rejected then outcome == T.Ended(T.Rejected)
              else outcome == T.Kept(if verdict.value.lifecycle == Qualified then T.Qualified else T.WatchNear))
      && (!lost && !readable && !TimeIsUp(c, now) ==> outcome == T.Failed)
  {
    hide Regime, Gates, Invalidated, Judge;
    assert TimeIsUp(c, now) == ExpiryReached(c, now);
    if inputs.Some? {
      var regime := Regime(inputs.value.market.h, inputs.value.structure);
      if regime.Ok? { match regime.value { case Long => case Short => } }
    }
  }
}
