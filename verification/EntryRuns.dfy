/** Whole activations and whole histories: retries, crashes and outside events in any order. */
module EntryRuns {
  import opened Trading
  import opened ExchangeModel
  import opened EntryProtocol
  import opened EntrySafety
  import ER = ExchangeRules

  /** The plan an activation reaches once nothing local and nothing in the preflight refuses it. */
  ghost predicate Reaches(world: World, env: Env, settings: Settings, assessments: seq<Assessment>, request: Request, plan: Plan) {
    && LocalRefusal(settings, assessments, request, world.trades).None?
    && Preflight(world.book, env, FindAssessment(assessments, request.signal).value, settings.takeProfitMultiple).0 == Go(plan)
  }

  ghost predicate NeverOrdered(book: Book, signal: string) {
    forall symbol: string, role: Role :: OrdersOf(book.orders, symbol, ClientId(role, signal)) == []
  }

  lemma {:induction false} FoundAssessment(assessments: seq<Assessment>, signal: string)
    ensures var found := FindAssessment(assessments, signal);
      found.Some? ==> found.value in assessments && found.value.signal == signal
  {
    if assessments != [] && assessments[0].signal != signal {
      FoundAssessment(assessments[1..], signal);
    }
  }

  /** An activation either stops before sending anything, or is Execute on a valid plan. */
  lemma ActivationShape(world: World, env: Env, settings: Settings, assessments: seq<Assessment>, request: Request)
    ensures var (outcome, after) := Activate(world, env, settings, assessments, request);
      || (!outcome.Returned? && after.trades == world.trades
          && after.book.orders == world.book.orders && after.book.net == world.book.net
          && (outcome.Raised? ==> outcome.code != UnprotectedPosition)
          && forall plan :: !Reaches(world, env, settings, assessments, request, plan))
      || (exists plan: Plan, start: Book ::
            && Reaches(world, env, settings, assessments, request, plan)
            && plan.Valid() && plan.assessment.approved && plan.assessment.signal == request.signal && plan.assessment in assessments
            && start == world.book.(tick := world.book.tick + 3)
            && Execute(start, env, plan) == (outcome, after.book)
            && after.trades == world.trades + (if outcome.Returned? then [outcome.trade] else []))
  {
    hide Execute;
    FoundAssessment(assessments, request.signal);
    if LocalRefusal(settings, assessments, request, world.trades).None? {
      var assessment := FindAssessment(assessments, request.signal).value;
      PreflightPlan(world.book, env, assessment, settings.takeProfitMultiple);
      var (phase, b1) := Preflight(world.book, env, assessment, settings.takeProfitMultiple);
      if phase.Go? {
        assert b1 == world.book.(tick := world.book.tick + 3);
        assert Reaches(world, env, settings, assessments, request, phase.value);
      }
    }
  }

  /** Fail-closed activation from a clean slate. A returned trade moved the position by its executed quantity
      and both its protective orders are active for that quantity, reduce-only, on the exit side; every error
      other than UnprotectedPosition leaves every position as it was, except exactly when the entry placement
      and its recovery query both went unanswered. */
  lemma ActivationFailsClosed(world: World, env: Env, settings: Settings, assessments: seq<Assessment>, request: Request, symbol: string)
    requires NeverOrdered(world.book, request.signal)
    ensures var (outcome, after) := Activate(world, env, settings, assessments, request);
      && (outcome.Returned? && outcome.trade.symbol == symbol ==>
            && Net(after.book, symbol) == Net(world.book, symbol) + Signed(outcome.trade.direction, outcome.trade.executed)
            && outcome.trade.executed > 0.0 && outcome.trade.signal == request.signal
            && (exists a :: a in assessments && a.signal == request.signal && a.approved && a.quantity.Some? && outcome.trade.executed <= a.quantity.value)
            && (exists plan :: Reaches(world, env, settings, assessments, request, plan) && plan.Symbol() == symbol
                  && plan.assessment.direction == outcome.trade.direction && Guarded(after.book, plan, outcome.trade)))
      && (outcome.Raised? && outcome.code != UnprotectedPosition ==>
            (Net(after.book, symbol) != Net(world.book, symbol) <==>
               && (exists plan :: Reaches(world, env, settings, assessments, request, plan) && plan.Symbol() == symbol)
               && EntryUnconfirmed(env, world.book.tick + 3)))
  {
    hide Execute, Preflight, CleanSlate, Guarded, EntryUnconfirmed;
    var (outcome, after) := Activate(world, env, settings, assessments, request);
    ActivationShape(world, env, settings, assessments, request);
    if exists plan :: Reaches(world, env, settings, assessments, request, plan) {
      var plan: Plan, start: Book :|
        && Reaches(world, env, settings, assessments, request, plan)
        && plan.Valid() && plan.assessment.approved && plan.assessment.signal == request.signal && plan.assessment in assessments
        && start == world.book.(tick := world.book.tick + 3)
        && Execute(start, env, plan) == (outcome, after.book)
        && after.trades == world.trades + (if outcome.Returned? then [outcome.trade] else []);
      CleanAfterPreflight(world.book, start, plan);
      ProtectedOrRestored(start, env, plan);
      OneSymbolOnly(start, env, plan);
    }
  }

  lemma CleanAfterPreflight(book: Book, start: Book, plan: Plan)
    requires NeverOrdered(book, plan.assessment.signal) && start.orders == book.orders
    ensures CleanSlate(start, plan)
  {
  }

  lemma OneSymbolOnly(book: Book, env: Env, plan: Plan)
    requires plan.rules.Valid()
    ensures var (outcome, after) := Execute(book, env, plan);
      outcome.Returned? ==> outcome.trade.symbol == plan.Symbol() && outcome.trade.direction == plan.assessment.direction
                            && outcome.trade.signal == plan.assessment.signal
  {
    hide ExistingOrNewEntry, Protect, EmergencyClose, VerifiedFilledOrder, CancelOrder;
  }

  // ---------------------------------------------------------------- a position that an error leaves behind

  const HealthyRules := ER.Rules(1.0, 100.0, 1.0, 0.0, 1000.0, 1.0, 1.0)

  function Healthy(): Fault {
    Fault(false, true, true, 1.0, Filled, true, true, Some(10.0), false, Some(HealthyRules), Some(10.0))
  }

  /** Everything works except that calls 4 and 5 get no answer; call 4 is the entry placement and lands. */
  function LostAnswers(tick: nat): Fault {
    if tick == 4 || tick == 5 then Healthy().(answered := false) else Healthy()
  }

  const LostAssessment := Assessment("s", "BTCUSDT", Long, true, Some(1.0), Some(9.0), Some(1.0))
  const LostPlan := Plan(LostAssessment, HealthyRules, 1.0, 9.0, 2.0)

  lemma WholeNumbersStay(k: int)
    ensures ER.RoundDown(k as real, 1.0) == k as real
  {
    assert k as real == ER.Steps(k, 1.0);
    ER.MultipleIsFixed(k as real, 1.0);
  }

  lemma LostNormalizedPlan()
    ensures NormalizedPlan(LostAssessment, HealthyRules, 10.0, 2.0) == Ok(LostPlan)
  {
    WholeNumbersStay(1);
    WholeNumbersStay(9);
    hide ER.RoundDown;
  }

  /** A fault that answers every read. */
  predicate AnswersReads(fault: Fault) {
    !fault.crash && fault.answered && !fault.hedged && fault.rules == Some(HealthyRules) && fault.mark == Some(10.0)
  }

  lemma HealthyPreflight(book: Book, env: Env)
    requires AnswersReads(env(book.tick)) && AnswersReads(env(book.tick + 1)) && AnswersReads(env(book.tick + 2))
    ensures Preflight(book, env, LostAssessment, 2.0) == (Go(LostPlan), book.(tick := book.tick + 3))
  {
    hide NormalizedPlan, LostPlan;
    LostNormalizedPlan();
  }

  lemma LostEntry(book: Book)
    requires book == Book([], map[], 3)
    ensures var (entry, after) := ExistingOrNewEntry(book, LostAnswers, LostPlan);
      entry == Failure && Net(after, "BTCUSDT") == 1.0
  {
  }

  /** The exception is real: one concrete run ends in OrderRejected with an open position. */
  lemma LostAnswersLeaveAPosition()
    ensures var start := World(Book([], map[], 0), []);
      var (outcome, after) := Activate(start, LostAnswers, Settings(true, true, true, 2.0), [LostAssessment], Request("s", None));
      outcome == Raised(OrderRejected) && Net(start.book, "BTCUSDT") == 0.0 && Net(after.book, "BTCUSDT") == 1.0
  {
    HealthyPreflight(Book([], map[], 0), LostAnswers);
    LostEntry(Book([], map[], 3));
    assert FindAssessment([LostAssessment], "s") == Some(LostAssessment);
    hide Preflight, ExistingOrNewEntry, AfterEntry;
  }

  // ---------------------------------------------------------------- histories

  /** Between activations anything may happen outside: fills, cancellations, manual trades, lost local
      records. Only orders carrying these client ids are never added by anyone else. */
  datatype Step = Attempt(settings: Settings, assessments: seq<Assessment>, request: Request) | Outside(next: World)

  ghost function Next(world: World, env: Env, step: Step): World {
    match step
    case Attempt(settings, assessments, request) => Activate(world, env, settings, assessments, request).1
    case Outside(next) => if SameIdentities(world.book.orders, next.book.orders) then next else world
  }

  ghost function Run(env: Env, steps: seq<Step>): World {
    if steps == [] then World(Book([], map[], 0), [])
    else Next(Run(env, steps[..|steps| - 1]), env, steps[|steps| - 1])
  }

  lemma AttemptKeepsOneEach(world: World, env: Env, settings: Settings, assessments: seq<Assessment>, request: Request)
    requires AtMostOneEach(world.book.orders)
    ensures var (outcome, after) := Activate(world, env, settings, assessments, request);
      && AtMostOneEach(after.book.orders)
      && (outcome.Returned? ==> exists plan: Plan ::
            plan.Valid() && plan.assessment.signal == request.signal && DescribedBy(outcome.trade, after.book, plan))
  {
    hide Execute, Preflight, DescribedBy, AtMostOneEach;
    var (outcome, after) := Activate(world, env, settings, assessments, request);
    ActivationShape(world, env, settings, assessments, request);
    if after.book.orders != world.book.orders || outcome.Returned? {
      var plan: Plan, start: Book :|
        && Reaches(world, env, settings, assessments, request, plan)
        && plan.Valid() && plan.assessment.approved && plan.assessment.signal == request.signal && plan.assessment in assessments
        && start == world.book.(tick := world.book.tick + 3)
        && Execute(start, env, plan) == (outcome, after.book)
        && after.trades == world.trades + (if outcome.Returned? then [outcome.trade] else []);
      OneOrderEach(start, env, plan);
    }
  }

  /** Over every history of activations, crashes, ambiguous failures and outside events, the exchange holds
      at most one entry, one stop and one take-profit order per signal. */
  lemma {:induction false} HistoriesKeepOneEach(env: Env, steps: seq<Step>)
    ensures AtMostOneEach(Run(env, steps).book.orders)
  {
    if steps != [] {
      hide Activate;
      HistoriesKeepOneEach(env, steps[..|steps| - 1]);
      var before := Run(env, steps[..|steps| - 1]);
      match steps[|steps| - 1]
      case Attempt(settings, assessments, request) =>
        AttemptKeepsOneEach(before, env, settings, assessments, request);
      case Outside(next) =>
        if SameIdentities(before.book.orders, next.book.orders) {
          IdentitiesKeepAtMostOne(before.book.orders, next.book.orders);
        }
    }
  }

  /** And whatever came before, the payload an activation returns describes those orders. */
  lemma HistoriesReturnTheOneOrder(env: Env, steps: seq<Step>, settings: Settings, assessments: seq<Assessment>, request: Request)
    ensures var (outcome, after) := Activate(Run(env, steps), env, settings, assessments, request);
      outcome.Returned? ==> exists plan: Plan ::
        plan.Valid() && plan.assessment.signal == request.signal && DescribedBy(outcome.trade, after.book, plan)
  {
    HistoriesKeepOneEach(env, steps);
    AttemptKeepsOneEach(Run(env, steps), env, settings, assessments, request);
  }
}
