/** When an activation succeeds: an if-and-only-if over settings, faults, prices and fills, written in those fields, for
    both directions, with the trade it then returns (app/services/execution.py:280-470). */
module EntrySuccess {
  import opened Trading
  import opened ExchangeModel
  import opened EntryProtocol
  import opened EntrySafety
  import opened EntryRuns
  import ER = ExchangeRules

  // ---------------------------------------------------------------- answers

  /** The call got its answer and the process lived. */
  predicate Replied(fault: Fault) {
    !fault.crash && fault.answered
  }

  /** The call that confirms the order submitted in call `tick`: the submission itself when it is answered, else the
      query after it. */
  function ConfirmedBy(env: Env, tick: nat): nat {
    if env(tick).answered then tick else tick + 1
  }

  /** The submission landed, and a confirming answer carries its client id and its order number. */
  predicate Confirmed(env: Env, tick: nat) {
    var submit, answer := env(tick), env(ConfirmedBy(env, tick));
    && !submit.crash && submit.landed
    && Replied(answer) && answer.identified && answer.numbered
  }

  // ---------------------------------------------------------------- the conditions, call by call

  /** The query sees no order; the placement fills the whole quantity and is confirmed with a positive average. */
  predicate EntryFills(env: Env, tick: nat, quantity: real) {
    && Replied(env(tick)) && Confirmed(env, tick + 1)
    && env(tick + 1).fill >= quantity
    && EntryPrice(env, tick) > 0.0
  }

  function EntryPrice(env: Env, tick: nat): real {
    var average := env(ConfirmedBy(env, tick + 1)).average;
    if average.None? then 0.0 else average.value
  }

  function MarkCall(env: Env, tick: nat): nat {
    ConfirmedBy(env, tick + 1) + 1
  }

  /** The target `multiple` stop distances away from the fill, on the winning side, rounded away to a tick. */
  function RawTarget(plan: Plan, price: real): real {
    if plan.assessment.direction == Long then price + (price - plan.stop) * plan.multiple
    else price - (plan.stop - price) * plan.multiple
  }

  function Target(plan: Plan, price: real): real
    requires plan.rules.Valid()
  {
    var raw := RawTarget(plan, price);
    if plan.assessment.direction == Long then ER.RoundUp(raw, plan.rules.priceTick) else ER.RoundDown(raw, plan.rules.priceTick)
  }

  /** The fill is beyond the stop, the target exists, and the second mark lies strictly between stop and target. */
  predicate PricesAllow(env: Env, mark: nat, plan: Plan, price: real)
    requires plan.rules.Valid()
  {
    && (if plan.assessment.direction == Long then plan.stop < price else price < plan.stop)
    && RawTarget(plan, price) > 0.0
    && plan.rules.priceMin <= Target(plan, price) <= plan.rules.priceMax
    && Replied(env(mark)) && env(mark).mark.Some? && env(mark).mark.value > 0.0
    && (if plan.assessment.direction == Long then plan.stop < env(mark).mark.value < Target(plan, price)
        else Target(plan, price) < env(mark).mark.value < plan.stop)
  }

  /** The query sees no guard; the submission lands as an active order and is confirmed. */
  predicate GuardStands(env: Env, tick: nat) {
    && Replied(env(tick)) && Confirmed(env, tick + 1)
    && env(tick + 1).status != Canceled && env(tick + 1).status != Expired && env(tick + 1).status != Rejected
  }

  function TakeCall(env: Env, stop: nat): nat {
    ConfirmedBy(env, stop + 1) + 1
  }

  predicate Succeeds(env: Env, tick: nat, plan: Plan)
    requires plan.rules.Valid()
  {
    var mark := MarkCall(env, tick);
    && EntryFills(env, tick, plan.quantity)
    && PricesAllow(env, mark, plan, EntryPrice(env, tick))
    && GuardStands(env, mark + 1) && GuardStands(env, TakeCall(env, mark + 1))
  }

  /** The trade of a successful run: the three orders are the three newest of the book. */
  function SuccessfulTrade(book: Book, env: Env, plan: Plan): Trade
    requires plan.rules.Valid() && plan.assessment.quantity.Some? && plan.assessment.quantity.value > 0.0
  {
    var price := EntryPrice(env, book.tick);
    var margin := if plan.assessment.margin.None? then 0.0
                  else plan.assessment.margin.value * plan.quantity / plan.assessment.quantity.value;
    Trade(plan.assessment.signal, plan.assessment.symbol, plan.assessment.direction,
          price, plan.stop, Target(plan, price),
          |book.orders|, |book.orders| + 1, |book.orders| + 2,
          plan.quantity, plan.quantity, margin)
  }

  // ---------------------------------------------------------------- entry

  lemma EntryExactly(book: Book, env: Env, plan: Plan)
    requires plan.Valid() && CleanSlate(book, plan)
    ensures var (entry, after) := ExistingOrNewEntry(book, env, plan);
      var verified := if entry.Answer? then VerifiedFilledOrder(entry.value, plan.Id(Entry), plan.quantity) else Err(OrderRejected);
      && (verified.Ok? <==> EntryFills(env, book.tick, plan.quantity))
      && (verified.Ok? ==>
            && verified.value == Fill(|book.orders|, EntryPrice(env, book.tick), plan.quantity)
            && after.tick == MarkCall(env, book.tick) && |after.orders| == |book.orders| + 1
            && Absent(after, plan, Stop) && Absent(after, plan, Take))
  {
    hide OrdersOf;
    assert Absent(book, plan, Entry);
    var order := MarketOrder(book, env(book.tick + 1), plan.Symbol(), plan.EntrySide(), plan.quantity, plan.Id(Entry), false);
    OrdersOfAppend(book.orders, order, plan.Symbol(), plan.Id(Entry));
    OrdersOfAppend(book.orders, order, plan.Symbol(), plan.Id(Stop));
    OrdersOfAppend(book.orders, order, plan.Symbol(), plan.Id(Take));
    assert Absent(book, plan, Stop) && Absent(book, plan, Take);
  }

  // ---------------------------------------------------------------- guards

  lemma GuardExactly(book: Book, env: Env, plan: Plan, role: Role, other: Role, quantity: real, trigger: real)
    requires Absent(book, plan, role) && other != role
    ensures var (reply, after) := PlaceProtectiveOrder(book, env, plan, role, quantity, trigger);
      var verified := if reply.Answer? then VerifiedProtectiveOrder(reply.value, plan.Id(role)) else None;
      && (verified.Some? <==> GuardStands(env, book.tick))
      && (verified.Some? ==>
            && verified.value == |book.orders| && after.tick == TakeCall(env, book.tick) && |after.orders| == |book.orders| + 1
            && (Absent(book, plan, other) ==> Absent(after, plan, other)))
  {
    hide OrdersOf;
    var order := ProtectiveOrder(book, env(book.tick + 1), plan.Symbol(), plan.ExitSide(), quantity, trigger, plan.Id(role));
    OrdersOfAppend(book.orders, order, plan.Symbol(), plan.Id(role));
    OrdersOfAppend(book.orders, order, plan.Symbol(), plan.Id(other));
  }

  lemma TargetExactly(plan: Plan, price: real)
    requires plan.Valid()
    requires if plan.assessment.direction == Long then plan.stop < price else price < plan.stop
    ensures var direction := plan.assessment.direction;
      ER.NormalizeProtectivePrice(plan.rules, ER.TakeProfitTarget(direction, price, plan.stop, plan.multiple), direction, false) ==
      if RawTarget(plan, price) <= 0.0 then Err(ER.TriggerNotPositive)
      else if plan.rules.priceMin <= Target(plan, price) <= plan.rules.priceMax then Ok(Target(plan, price))
      else Err(ER.PriceOutsideLimits)
  {
    var direction := plan.assessment.direction;
    assert ER.TakeProfitTarget(direction, price, plan.stop, plan.multiple) == RawTarget(plan, price);
    ER.ProtectivePriceMovesAway(plan.rules, RawTarget(plan, price), direction, false);
    hide ER.RoundDown, RawTarget, ER.TakeProfitTarget;
  }

  lemma ProtectionExactly(book: Book, env: Env, plan: Plan, fill: Fill)
    requires plan.Valid() && Absent(book, plan, Stop) && Absent(book, plan, Take)
    ensures var (protecting, _) := Protect(book, env, plan, fill);
      var stop := book.tick + 1;
      && (protecting.Protected? <==>
            PricesAllow(env, book.tick, plan, fill.price) && GuardStands(env, stop) && GuardStands(env, TakeCall(env, stop)))
      && (protecting.Protected? ==>
            protecting.protection == Protection(Target(plan, fill.price), |book.orders|, |book.orders| + 1))
  {
    hide PlaceProtectiveOrder, OrdersOf, GuardStands, TakeCall, VerifiedProtectiveOrder, ER.NormalizeProtectivePrice, ER.TakeProfitTarget, Target, RawTarget;
    if if plan.assessment.direction == Long then plan.stop < fill.price else fill.price < plan.stop {
      TargetExactly(plan, fill.price);
      var start := Ticked(book);
      var (_, b1) := PlaceProtectiveOrder(start, env, plan, Stop, fill.quantity, plan.stop);
      GuardExactly(start, env, plan, Stop, Take, fill.quantity, plan.stop);
      if GuardStands(env, start.tick) {
        GuardExactly(b1, env, plan, Take, Stop, fill.quantity, Target(plan, fill.price));
      }
    }
  }

  // ---------------------------------------------------------------- the whole execution

  /** From a clean slate, execution returns exactly when every condition above holds, and returns that trade. */
  lemma ReturnsExactlyWhen(book: Book, env: Env, plan: Plan)
    requires plan.Valid() && CleanSlate(book, plan)
    ensures var (outcome, _) := Execute(book, env, plan);
      && (outcome.Returned? <==> Succeeds(env, book.tick, plan))
      && (outcome.Returned? ==> outcome.trade == SuccessfulTrade(book, env, plan))
  {
    hide ExistingOrNewEntry, Protect, VerifiedFilledOrder, EntryFills, PricesAllow, GuardStands, AbandonPosition, EmergencyClose,
      CleanSlate, Absent, EntryPrice, Target, MarkCall, TakeCall, BoundedExecutedQuantity;
    EntryExactly(book, env, plan);
    var (entry, b1) := ExistingOrNewEntry(book, env, plan);
    if entry.Answer? && VerifiedFilledOrder(entry.value, plan.Id(Entry), plan.quantity).Ok? {
      var fill := VerifiedFilledOrder(entry.value, plan.Id(Entry), plan.quantity).value;
      ProtectionExactly(b1, env, plan, fill);
      var (protecting, b2) := Protect(b1, env, plan, fill);
      if protecting.Unprotected? { AbandonPhase(b2, env, plan, fill.quantity, protecting.stopPlaced); }
    } else if entry.Answer? {
      RejectedFillPhase(b1, env, plan, entry.value);
    }
  }

  // ---------------------------------------------------------------- bringing the position back

  /** The reduce-only close fills whole, against a position large enough, and its answer says so. */
  predicate Closes(book: Book, env: Env, tick: nat, plan: Plan, quantity: real) {
    var fault, net := env(tick), Net(book, plan.Symbol());
    && Replied(fault) && fault.landed && fault.identified && fault.numbered
    && fault.average.Some? && fault.average.value > 0.0 && fault.fill >= quantity
    && (if plan.assessment.direction == Long then net >= quantity else -net >= quantity)
  }

  /** The emergency close succeeds exactly then; any other answer, and none, is UNPROTECTED. */
  lemma CloseExactlyWhen(book: Book, env: Env, plan: Plan, quantity: real)
    requires quantity > 0.0
    ensures EmergencyClose(book, env, plan, quantity).0 ==
            if env(book.tick).crash then Dead else if Closes(book, env, book.tick, plan, quantity) then Go(()) else Stopped(UnprotectedPosition)
  {
  }

  /** A failed protection: the verified stop is cancelled as best effort whatever the answer, and the error says POSITION_CLOSED
      exactly when the close succeeds. */
  lemma AbandonExactlyWhen(book: Book, env: Env, plan: Plan, quantity: real, stopPlaced: bool)
    requires quantity > 0.0
    ensures var close := if stopPlaced then book.tick + 1 else book.tick;
      AbandonPosition(book, env, plan, quantity, stopPlaced).0 ==
      if (stopPlaced && env(book.tick).crash) || env(close).crash then Crashed
      else if Closes(book, env, close, plan, quantity) then Raised(ProtectionFailedPositionClosed) else Raised(UnprotectedPosition)
  {
    hide EmergencyClose;
    var b1 := if stopPlaced then CancelOrder(book, env, plan.Symbol(), plan.Id(Stop)).1 else book;
    assert b1.net == book.net;
    CloseExactlyWhen(b1, env, plan, quantity);
  }

  /** An entry answer that does not verify: a reported fill within the plan is closed again before the error is raised; nothing
      is sent when no fill, or more than the plan, is reported. */
  lemma UnverifiedEntryExactly(book: Book, env: Env, plan: Plan, payload: Payload)
    requires plan.Valid() && VerifiedFilledOrder(payload, plan.Id(Entry), plan.quantity).Err?
    ensures var (outcome, after) := AfterEntry(book, env, plan, payload);
      var error := VerifiedFilledOrder(payload, plan.Id(Entry), plan.quantity).error;
      if 0.0 < payload.executed <= plan.quantity then
        outcome == if env(book.tick).crash then Crashed
                   else if Closes(book, env, book.tick, plan, payload.executed) then Raised(error) else Raised(UnprotectedPosition)
      else outcome == Raised(error) && after == book
  {
    hide EmergencyClose, VerifiedFilledOrder;
    if 0.0 < payload.executed <= plan.quantity { CloseExactlyWhen(book, env, plan, payload.executed); }
  }

  /** What is wrong with an entry answer, in this order. */
  lemma EntryErrors(payload: Payload, expected: ClientId, maximum: real)
    ensures VerifiedFilledOrder(payload, expected, maximum) ==
      if payload.clientId != Some(expected) || payload.orderId == None then Err(EntryIdentityInvalid)
      else if payload.status == Filled && payload.average == None then Err(ExchangePayloadInvalid)
      else if payload.status == Filled && payload.average.value > 0.0 && payload.executed > 0.0 then
        if payload.executed <= maximum then Ok(Fill(payload.orderId.value, payload.average.value, payload.executed)) else Err(EntryFillExceedsRiskQuantity)
      else Err(EntryFillNotVerified)
  {
  }

  // ---------------------------------------------------------------- from the request on

  /** The first assessment of this signal. */
  ghost predicate FirstOf(assessments: seq<Assessment>, signal: string, i: int) {
    && 0 <= i < |assessments| && assessments[i].signal == signal
    && forall j :: 0 <= j < i ==> assessments[j].signal != signal
  }

  /** Nothing local stands against activating this assessment. */
  ghost predicate Permitted(world: World, settings: Settings, request: Request, assessment: Assessment) {
    && settings.enabled && settings.credentials && settings.clientConfigured && settings.takeProfitMultiple > 0.0
    && request.clientQuantity.None?
    && assessment.approved && assessment.quantity.Some? && assessment.stop.Some?
    && forall k :: 0 <= k < |world.trades| ==> world.trades[k].signal != request.signal
  }

  /** The approved quantity cut to whole steps and the approved stop moved away from the entry to a tick. */
  function SentPlan(assessment: Assessment, rules: ER.Rules, multiple: real): Plan
    requires rules.Valid() && assessment.quantity.Some? && assessment.stop.Some?
  {
    var stop := if assessment.direction == Long then ER.RoundDown(assessment.stop.value, rules.priceTick)
                else ER.RoundUp(assessment.stop.value, rules.priceTick);
    Plan(assessment, rules, ER.RoundDown(assessment.quantity.value, rules.quantityStep), stop, multiple)
  }

  /** Three answered reads: one-way mode, valid rules the plan lies within, and a mark on the winning side of the stop. */
  predicate ReadsAllow(env: Env, tick: nat, assessment: Assessment, multiple: real)
    requires assessment.quantity.Some? && assessment.stop.Some?
  {
    var mode, info, price := env(tick), env(tick + 1), env(tick + 2);
    && Replied(mode) && !mode.hedged
    && Replied(info) && info.rules.Some? && info.rules.value.Valid()
    && Replied(price) && price.mark.Some? && price.mark.value > 0.0
    && (var rules := info.rules.value; var plan := SentPlan(assessment, rules, multiple);
        && rules.quantityMin <= assessment.quantity.value && rules.quantityMin <= plan.quantity <= rules.quantityMax
        && plan.quantity * price.mark.value >= rules.minNotional
        && assessment.stop.value > 0.0 && rules.priceMin <= plan.stop <= rules.priceMax
        && (if assessment.direction == Long then plan.stop < price.mark.value else price.mark.value < plan.stop))
  }

  /** Everything an activation of this assessment needs. */
  ghost predicate AllAllow(world: World, env: Env, settings: Settings, request: Request, assessment: Assessment) {
    && Permitted(world, settings, request, assessment)
    && ReadsAllow(env, world.book.tick, assessment, settings.takeProfitMultiple)
    && Succeeds(env, world.book.tick + 3, SentPlan(assessment, env(world.book.tick + 1).rules.value, settings.takeProfitMultiple))
  }

  lemma {:induction false} FindsTheFirst(assessments: seq<Assessment>, signal: string)
    ensures var found := FindAssessment(assessments, signal);
      && (found.Some? ==> exists i :: FirstOf(assessments, signal, i) && assessments[i] == found.value)
      && (found.None? ==> forall i :: !FirstOf(assessments, signal, i))
  {
    if assessments != [] {
      if assessments[0].signal == signal {
        assert FirstOf(assessments, signal, 0);
      } else {
        FindsTheFirst(assessments[1..], signal);
        forall i | FirstOf(assessments, signal, i)
          ensures FirstOf(assessments[1..], signal, i - 1)
        {
          assert forall j :: 0 <= j < i - 1 ==> assessments[1..][j] == assessments[j + 1];
        }
        if FindAssessment(assessments, signal).Some? {
          var i :| FirstOf(assessments[1..], signal, i) && assessments[1..][i] == FindAssessment(assessments[1..], signal).value;
          forall j | 0 <= j < i + 1 ensures assessments[j].signal != signal {
            if j > 0 { assert assessments[j] == assessments[1..][j - 1]; }
          }
          assert FirstOf(assessments, signal, i + 1);
        }
      }
    }
  }

  lemma OneFirst(assessments: seq<Assessment>, signal: string, i: int, j: int)
    requires FirstOf(assessments, signal, i) && FirstOf(assessments, signal, j)
    ensures i == j
  {
  }

  lemma LocalExactly(world: World, settings: Settings, assessments: seq<Assessment>, request: Request)
    ensures var found := FindAssessment(assessments, request.signal);
      LocalRefusal(settings, assessments, request, world.trades).None? <==>
      found.Some? && Permitted(world, settings, request, found.value)
  {
    hide FindAssessment;
    if t :| t in world.trades && t.signal == request.signal {
      var k :| 0 <= k < |world.trades| && world.trades[k] == t;
    }
  }

  lemma PlanExactly(assessment: Assessment, rules: ER.Rules, mark: real, multiple: real)
    requires assessment.quantity.Some? && assessment.stop.Some? && rules.Valid() && mark > 0.0
    ensures var r, plan := NormalizedPlan(assessment, rules, mark, multiple), SentPlan(assessment, rules, multiple);
      && (r.Ok? <==>
            && rules.quantityMin <= assessment.quantity.value && rules.quantityMin <= plan.quantity <= rules.quantityMax
            && plan.quantity * mark >= rules.minNotional
            && assessment.stop.value > 0.0 && rules.priceMin <= plan.stop <= rules.priceMax
            && (if assessment.direction == Long then plan.stop < mark else mark < plan.stop))
      && (r.Ok? ==> r.value == plan)
  {
    hide ER.RoundDown;
    ER.MarketQuantityIsGreatestStep(rules, assessment.quantity.value);
    ER.ProtectivePriceMovesAway(rules, assessment.stop.value, assessment.direction, true);
  }

  lemma ReadsExactly(book: Book, env: Env, assessment: Assessment, multiple: real)
    requires assessment.quantity.Some? && assessment.stop.Some?
    ensures var (phase, after) := Preflight(book, env, assessment, multiple);
      && (phase.Go? <==> ReadsAllow(env, book.tick, assessment, multiple))
      && (phase.Go? ==> phase.value == SentPlan(assessment, env(book.tick + 1).rules.value, multiple) && after == book.(tick := book.tick + 3))
  {
    hide NormalizedPlan, SentPlan;
    var info, mark := env(book.tick + 1).rules, env(book.tick + 2).mark;
    if info.Some? && info.value.Valid() && mark.Some? && mark.value > 0.0 { PlanExactly(assessment, info.value, mark.value, multiple); }
  }

  lemma SendsExactly(world: World, env: Env, settings: Settings, request: Request, assessment: Assessment)
    requires NeverOrdered(world.book, request.signal) && assessment.signal == request.signal
    requires Permitted(world, settings, request, assessment)
    ensures var (phase, b1) := Preflight(world.book, env, assessment, settings.takeProfitMultiple);
      && (phase.Go? ==> phase.value.Valid())
      && (phase.Go? && Execute(b1, env, phase.value).0.Returned? <==> AllAllow(world, env, settings, request, assessment))
      && (AllAllow(world, env, settings, request, assessment) ==>
            Execute(b1, env, phase.value).0 == Returned(SuccessfulTrade(world.book.(tick := world.book.tick + 3), env,
                 SentPlan(assessment, env(world.book.tick + 1).rules.value, settings.takeProfitMultiple))))
  {
    hide Execute, Preflight, ReadsAllow, Succeeds, SuccessfulTrade, SentPlan;
    var (phase, b1) := Preflight(world.book, env, assessment, settings.takeProfitMultiple);
    ReadsExactly(world.book, env, assessment, settings.takeProfitMultiple);
    PreflightPlan(world.book, env, assessment, settings.takeProfitMultiple);
    if phase.Go? {
      CleanAfterPreflight(world.book, b1, phase.value);
      hide CleanSlate;
      ReturnsExactlyWhen(b1, env, phase.value);
    }
  }

  /** A signal never ordered before: an activation returns exactly when every one of these conditions holds of its first
      assessment, and then it returns that trade. */
  lemma ActivationReturnsExactlyWhen(world: World, env: Env, settings: Settings, assessments: seq<Assessment>, request: Request)
    requires NeverOrdered(world.book, request.signal)
    ensures var outcome := Activate(world, env, settings, assessments, request).0;
      && (outcome.Returned? <==> exists i :: FirstOf(assessments, request.signal, i) && AllAllow(world, env, settings, request, assessments[i]))
      && (forall i :: FirstOf(assessments, request.signal, i) && AllAllow(world, env, settings, request, assessments[i]) ==>
            var plan := SentPlan(assessments[i], env(world.book.tick + 1).rules.value, settings.takeProfitMultiple);
            outcome == Returned(SuccessfulTrade(world.book.(tick := world.book.tick + 3), env, plan)))
  {
    hide Execute, Preflight, FindAssessment, LocalRefusal, CleanSlate, ReadsAllow, Succeeds, SuccessfulTrade, SentPlan, Permitted;
    var found := FindAssessment(assessments, request.signal);
    FindsTheFirst(assessments, request.signal);
    LocalExactly(world, settings, assessments, request);
    if found.Some? {
      var first :| FirstOf(assessments, request.signal, first) && assessments[first] == found.value;
      forall i | FirstOf(assessments, request.signal, i) ensures i == first { OneFirst(assessments, request.signal, i, first); }
      if Permitted(world, settings, request, found.value) { SendsExactly(world, env, settings, request, found.value); }
    }
  }

  // ---------------------------------------------------------------- a SHORT run that succeeds

  function AllHealthy(tick: nat): Fault { Healthy() }

  const ShortAssessment := Assessment("s", "BTCUSDT", Short, true, Some(1.0), Some(11.0), Some(1.0))
  const ShortPlan := Plan(ShortAssessment, HealthyRules, 1.0, 11.0, 2.0)

  lemma ShortPlanIsSent()
    ensures SentPlan(ShortAssessment, HealthyRules, 2.0) == ShortPlan
    ensures RawTarget(ShortPlan, 10.0) == 8.0 && Target(ShortPlan, 10.0) == 8.0
  {
    WholeNumbersStay(1);
    WholeNumbersStay(-11);
    WholeNumbersStay(8);
    hide ER.RoundDown;
  }

  lemma ShortRunAllows()
    ensures AllAllow(World(Book([], map[], 0), []), AllHealthy, Settings(true, true, true, 2.0), Request("s", None), ShortAssessment)
    ensures SuccessfulTrade(Book([], map[], 3), AllHealthy, ShortPlan)
            == Trade("s", "BTCUSDT", Short, 10.0, 11.0, 8.0, 0, 1, 2, 1.0, 1.0, 1.0)
  {
    ShortPlanIsSent();
    hide SentPlan, RawTarget, Target;
  }

  /** From an empty book: stop 11, fill 10, two stop distances, ticks of 1. The SHORT activation returns its trade with the
      take-profit at 8. */
  lemma ShortActivationReturns()
    ensures Activate(World(Book([], map[], 0), []), AllHealthy, Settings(true, true, true, 2.0), [ShortAssessment], Request("s", None)).0
            == Returned(Trade("s", "BTCUSDT", Short, 10.0, 11.0, 8.0, 0, 1, 2, 1.0, 1.0, 1.0))
  {
    hide Activate, AllAllow, SentPlan, SuccessfulTrade;
    ShortPlanIsSent();
    ShortRunAllows();
    assert FirstOf([ShortAssessment], "s", 0);
    ActivationReturnsExactlyWhen(World(Book([], map[], 0), []), AllHealthy, Settings(true, true, true, 2.0), [ShortAssessment], Request("s", None));
  }
}
