/** The activation protocol of app/services/execution.py and the query-before-retry adapter of
    app/services/execution_private_adapter.py, as functions of the exchange book and the faults met. */
module EntryProtocol {
  import opened Trading
  import opened ExchangeModel
  import ER = ExchangeRules

  datatype Code =
    | ExecutionDisabled | CredentialsNotConfigured | TakeProfitPolicyNotConfigured
    | ClientQuantityNotAllowed | SignalNotFound | PlanNotExecutable | SignalAlreadyExecuted
    | RiskQuantityUnavailable | RiskStopUnavailable | PrivateApiNotConfigured
    | HedgeModeUnsupported | PrivateApiUnavailable | ExchangePayloadInvalid | ExchangeRuleValidationFailed
    | ProtectivePriceInvalid | OrderRejected
    | EntryIdentityInvalid | EntryFillNotVerified | EntryFillExceedsRiskQuantity
    | ProtectionNotVerified | ProtectionFailedPositionClosed | UnprotectedPosition

  datatype Settings = Settings(enabled: bool, credentials: bool, clientConfigured: bool, takeProfitMultiple: real)

  datatype Assessment = Assessment(
    signal: string, symbol: string, direction: Direction, approved: bool,
    quantity: Option<real>, stop: Option<real>, margin: Option<real>)

  datatype Request = Request(signal: string, clientQuantity: Option<real>)

  datatype Trade = Trade(
    signal: string, symbol: string, direction: Direction,
    entryPrice: real, stopPrice: real, takeProfitPrice: real,
    entryOrder: nat, stopOrder: nat, takeOrder: nat,
    requested: real, executed: real, margin: real)

  datatype Outcome = Returned(trade: Trade) | Raised(code: Code) | Crashed

  datatype World = World(book: Book, trades: seq<Trade>)

  // ---------------------------------------------------------------- before anything is sent

  datatype Plan = Plan(assessment: Assessment, rules: ER.Rules, quantity: real, stop: real, multiple: real)
  {
    predicate Valid() {
      && rules.Valid() && quantity > 0.0 && multiple > 0.0
      && assessment.quantity.Some? && quantity <= assessment.quantity.value
      && ER.NormalizeMarketQuantity(rules, assessment.quantity.value) == Ok(quantity)
      && assessment.stop.Some?
      && ER.NormalizeProtectivePrice(rules, assessment.stop.value, assessment.direction, true) == Ok(stop)
    }
    function Symbol(): string { assessment.symbol }
    function Id(role: Role): ClientId { ClientId(role, assessment.signal) }
    function EntrySide(): Side { SideFor(assessment.direction) }
    function ExitSide(): Side { SideFor(assessment.direction.Opposite()) }
  }

  function FindAssessment(assessments: seq<Assessment>, signal: string): Option<Assessment> {
    if assessments == [] then None
    else if assessments[0].signal == signal then Some(assessments[0])
    else FindAssessment(assessments[1..], signal)
  }

  function LocalRefusal(settings: Settings, assessments: seq<Assessment>, request: Request, trades: seq<Trade>): Option<Code> {
    var assessment := FindAssessment(assessments, request.signal);
    if !settings.enabled then Some(ExecutionDisabled)
    else if !settings.credentials then Some(CredentialsNotConfigured)
    else if settings.takeProfitMultiple <= 0.0 then Some(TakeProfitPolicyNotConfigured)
    else if request.clientQuantity.Some? then Some(ClientQuantityNotAllowed)
    else if assessment.None? then Some(SignalNotFound)
    else if !assessment.value.approved then Some(PlanNotExecutable)
    else if exists t :: t in trades && t.signal == request.signal then Some(SignalAlreadyExecuted)
    else if assessment.value.quantity.None? then Some(RiskQuantityUnavailable)
    else if assessment.value.stop.None? then Some(RiskStopUnavailable)
    else if !settings.clientConfigured then Some(PrivateApiNotConfigured)
    else None
  }

  /** Quantity and stop after exchange normalisation, checked against the current mark. */
  function NormalizedPlan(assessment: Assessment, rules: ER.Rules, mark: real, multiple: real): Result<Plan, Code>
    requires assessment.quantity.Some? && assessment.stop.Some? && rules.Valid()
  {
    var quantity := ER.NormalizeMarketQuantity(rules, assessment.quantity.value);
    var stop := ER.NormalizeProtectivePrice(rules, assessment.stop.value, assessment.direction, true);
    if quantity.Err? || ER.ValidateMarketNotional(rules, quantity.value, mark).Err? || stop.Err? then Err(ExchangeRuleValidationFailed)
    else if !ER.StopOnLosingSide(assessment.direction, mark, stop.value) then Err(ProtectivePriceInvalid)
    else Ok(Plan(assessment, rules, quantity.value, stop.value, multiple))
  }

  datatype Phase<T> = Go(value: T) | Stopped(code: Code) | Dead

  function MarkPrice(book: Book, env: Env): (Phase<real>, Book) {
    var (reply, after) := Read(book, env);
    match reply
    case Crash => (Dead, after)
    case Failure => (Stopped(PrivateApiUnavailable), after)
    case NotFound => (Stopped(PrivateApiUnavailable), after)
    case Answer(f) =>
      if f.mark.None? then (Stopped(ExchangePayloadInvalid), after)
      else if f.mark.value <= 0.0 then (Stopped(ExchangeRuleValidationFailed), after)
      else (Go(f.mark.value), after)
  }

  function Preflight(book: Book, env: Env, assessment: Assessment, multiple: real): (Phase<Plan>, Book)
    requires assessment.quantity.Some? && assessment.stop.Some?
  {
    var (mode, b1) := Read(book, env);
    if mode.Crash? then (Dead, b1)
    else if !mode.Answer? then (Stopped(PrivateApiUnavailable), b1)
    else if mode.value.hedged then (Stopped(HedgeModeUnsupported), b1)
    else
      var (info, b2) := Read(b1, env);
      if info.Crash? then (Dead, b2)
      else if !info.Answer? then (Stopped(PrivateApiUnavailable), b2)
      else if info.value.rules.None? || !info.value.rules.value.Valid() then (Stopped(ExchangeRuleValidationFailed), b2)
      else
        var (mark, b3) := MarkPrice(b2, env);
        match mark
        case Dead => (Dead, b3)
        case Stopped(code) => (Stopped(code), b3)
        case Go(price) =>
          match NormalizedPlan(assessment, info.value.rules.value, price, multiple)
          case Err(code) => (Stopped(code), b3)
          case Ok(plan) => (Go(plan), b3)
  }

  // ---------------------------------------------------------------- entry order

  /** Query by the deterministic id, place only when it is absent, query again when the placement fails.
      A reply other than Answer or Crash is the client error the caller turns into OrderRejected. */
  function ExistingOrNewEntry(book: Book, env: Env, plan: Plan): (Reply<Payload>, Book) {
    var id := plan.Id(Entry);
    var (existing, b1) := QueryOrder(book, env, plan.Symbol(), id);
    if !existing.NotFound? then (existing, b1)
    else
      var (placed, b2) := PlaceMarketOrder(b1, env, plan.Symbol(), plan.EntrySide(), plan.quantity, id, false);
      if !placed.Failure? then (placed, b2)
      else
        var (recovered, b3) := QueryOrder(b2, env, plan.Symbol(), id);
        if recovered.NotFound? then (Failure, b3) else (recovered, b3)
  }

  datatype Fill = Fill(orderId: nat, price: real, quantity: real)

  function VerifiedFilledOrder(payload: Payload, expected: ClientId, maximum: real): Result<Fill, Code> {
    if payload.clientId != Some(expected) || payload.orderId.None? then Err(EntryIdentityInvalid)
    else if payload.status != Filled then Err(EntryFillNotVerified)
    else if payload.average.None? then Err(ExchangePayloadInvalid)
    else if payload.average.value <= 0.0 || payload.executed <= 0.0 then Err(EntryFillNotVerified)
    else if payload.executed > maximum then Err(EntryFillExceedsRiskQuantity)
    else Ok(Fill(payload.orderId.value, payload.average.value, payload.executed))
  }

  function BoundedExecutedQuantity(payload: Payload, maximum: real): real {
    if payload.executed <= 0.0 || payload.executed > maximum then 0.0 else payload.executed
  }

  /** Reduce-only market close; anything short of a verified full fill is UnprotectedPosition. */
  function EmergencyClose(book: Book, env: Env, plan: Plan, quantity: real): (Phase<()>, Book) {
    var id := plan.Id(Close);
    var (placed, after) := PlaceMarketOrder(book, env, plan.Symbol(), plan.ExitSide(), quantity, id, true);
    match placed
    case Crash => (Dead, after)
    case Failure => (Stopped(UnprotectedPosition), after)
    case NotFound => (Stopped(UnprotectedPosition), after)
    case Answer(payload) =>
      if VerifiedFilledOrder(payload, id, quantity).Ok? then (Go(()), after) else (Stopped(UnprotectedPosition), after)
  }

  // ---------------------------------------------------------------- protection

  /** The adapter: query the deterministic id before submitting and again after an ambiguous failure. */
  function PlaceProtectiveOrder(book: Book, env: Env, plan: Plan, role: Role, quantity: real, trigger: real): (Reply<Payload>, Book) {
    var id := plan.Id(role);
    var (existing, b1) := QueryOrder(book, env, plan.Symbol(), id);
    if !existing.NotFound? then (existing, b1)
    else
      var (submitted, b2) := SubmitProtective(b1, env, plan.Symbol(), plan.ExitSide(), quantity, trigger, id);
      if !submitted.Failure? then (submitted, b2)
      else
        var (recovered, b3) := QueryOrder(b2, env, plan.Symbol(), id);
        if recovered.NotFound? then (Failure, b3) else (recovered, b3)
  }

  function VerifiedProtectiveOrder(payload: Payload, expected: ClientId): Option<nat> {
    if payload.clientId != Some(expected) || !Active(payload.status) then None else payload.orderId
  }

  predicate ProtectionAroundMark(direction: Direction, mark: real, stop: real, takeProfit: real) {
    if direction == Long then stop < mark < takeProfit else takeProfit < mark < stop
  }

  datatype Protection = Protection(takeProfit: real, stopOrder: nat, takeOrder: nat)

  /** Outcome of the protection phase; a failure remembers whether the stop had been verified. */
  datatype Protecting = Protected(protection: Protection) | Unprotected(stopPlaced: bool) | ProtectingDead

  function PlaceTake(book: Book, env: Env, plan: Plan, fill: Fill, takeProfit: real, stopOrder: nat): (Protecting, Book) {
    var (take, after) := PlaceProtectiveOrder(book, env, plan, Take, fill.quantity, takeProfit);
    match take
    case Crash => (ProtectingDead, after)
    case Failure => (Unprotected(true), after)
    case NotFound => (Unprotected(true), after)
    case Answer(payload) =>
      match VerifiedProtectiveOrder(payload, plan.Id(Take))
      case None => (Unprotected(true), after)
      case Some(takeOrder) => (Protected(Protection(takeProfit, stopOrder, takeOrder)), after)
  }

  function PlaceStop(book: Book, env: Env, plan: Plan, fill: Fill, takeProfit: real): (Protecting, Book) {
    var (stop, after) := PlaceProtectiveOrder(book, env, plan, Stop, fill.quantity, plan.stop);
    match stop
    case Crash => (ProtectingDead, after)
    case Failure => (Unprotected(false), after)
    case NotFound => (Unprotected(false), after)
    case Answer(payload) =>
      match VerifiedProtectiveOrder(payload, plan.Id(Stop))
      case None => (Unprotected(false), after)
      case Some(stopOrder) => PlaceTake(after, env, plan, fill, takeProfit, stopOrder)
  }

  function Protect(book: Book, env: Env, plan: Plan, fill: Fill): (Protecting, Book)
    requires plan.rules.Valid()
  {
    var direction := plan.assessment.direction;
    var takeProfit := ER.NormalizeProtectivePrice(
      plan.rules, ER.TakeProfitTarget(direction, fill.price, plan.stop, plan.multiple), direction, false);
    if !ER.StopOnLosingSide(direction, fill.price, plan.stop) || takeProfit.Err? then (Unprotected(false), book)
    else
      var (mark, after) := MarkPrice(book, env);
      match mark
      case Dead => (ProtectingDead, after)
      case Stopped(_) => (Unprotected(false), after)
      case Go(price) =>
        if !ProtectionAroundMark(direction, price, plan.stop, takeProfit.value) then (Unprotected(false), after)
        else PlaceStop(after, env, plan, fill, takeProfit.value)
  }

  // ---------------------------------------------------------------- the whole activation

  function ScaledMargin(assessment: Assessment, executed: real): real {
    if assessment.margin.None? || assessment.quantity.None? || assessment.quantity.value <= 0.0 then 0.0
    else assessment.margin.value * executed / assessment.quantity.value
  }

  function TradeOf(plan: Plan, fill: Fill, protection: Protection): Trade {
    Trade(
      plan.assessment.signal, plan.assessment.symbol, plan.assessment.direction,
      fill.price, plan.stop, protection.takeProfit,
      fill.orderId, protection.stopOrder, protection.takeOrder,
      plan.quantity, fill.quantity, ScaledMargin(plan.assessment, fill.quantity))
  }

  /** After a protection failure: cancel a verified stop as best effort, then close the position. */
  function AbandonPosition(book: Book, env: Env, plan: Plan, quantity: real, stopPlaced: bool): (Outcome, Book) {
    var (cancel, b1) := if stopPlaced then CancelOrder(book, env, plan.Symbol(), plan.Id(Stop)) else (Answer(()), book);
    if cancel.Crash? then (Crashed, b1)
    else
      var (closed, b2) := EmergencyClose(b1, env, plan, quantity);
      match closed
      case Dead => (Crashed, b2)
      case Stopped(code) => (Raised(code), b2)
      case Go(_) => (Raised(ProtectionFailedPositionClosed), b2)
  }

  /** From the entry payload on: verify, protect, or bring the position back. */
  function AfterEntry(book: Book, env: Env, plan: Plan, payload: Payload): (Outcome, Book)
    requires plan.rules.Valid()
  {
    match VerifiedFilledOrder(payload, plan.Id(Entry), plan.quantity)
    case Err(code) =>
      var partial := BoundedExecutedQuantity(payload, plan.quantity);
      if partial > 0.0 then
        var (closed, after) := EmergencyClose(book, env, plan, partial);
        match closed
        case Dead => (Crashed, after)
        case Stopped(closeCode) => (Raised(closeCode), after)
        case Go(_) => (Raised(code), after)
      else (Raised(code), book)
    case Ok(fill) =>
      var (protecting, after) := Protect(book, env, plan, fill);
      match protecting
      case ProtectingDead => (Crashed, after)
      case Unprotected(stopPlaced) => AbandonPosition(after, env, plan, fill.quantity, stopPlaced)
      case Protected(protection) => (Returned(TradeOf(plan, fill, protection)), after)
  }

  function Execute(book: Book, env: Env, plan: Plan): (Outcome, Book)
    requires plan.rules.Valid()
  {
    var (entry, after) := ExistingOrNewEntry(book, env, plan);
    match entry
    case Crash => (Crashed, after)
    case Failure => (Raised(OrderRejected), after)
    case NotFound => (Raised(OrderRejected), after)
    case Answer(payload) => AfterEntry(after, env, plan, payload)
  }

  lemma PreflightPlan(book: Book, env: Env, assessment: Assessment, multiple: real)
    requires assessment.quantity.Some? && assessment.stop.Some? && multiple > 0.0
    ensures var (phase, after) := Preflight(book, env, assessment, multiple);
      && after.orders == book.orders && after.net == book.net
      && (phase.Go? ==> phase.value.Valid() && phase.value.assessment == assessment && phase.value.multiple == multiple)
  {
    var (phase, after) := Preflight(book, env, assessment, multiple);
    if phase.Go? {
      ER.MarketQuantityIsGreatestStep(phase.value.rules, assessment.quantity.value);
    }
  }

  function Activate(world: World, env: Env, settings: Settings, assessments: seq<Assessment>, request: Request): (Outcome, World) {
    match LocalRefusal(settings, assessments, request, world.trades)
    case Some(code) => (Raised(code), world)
    case None =>
      var assessment := FindAssessment(assessments, request.signal).value;
      var (phase, b1) := Preflight(world.book, env, assessment, settings.takeProfitMultiple);
      match phase
      case Dead => (Crashed, world.(book := b1))
      case Stopped(code) => (Raised(code), world.(book := b1))
      case Go(plan) =>
        PreflightPlan(world.book, env, assessment, settings.takeProfitMultiple);
        var (outcome, b2) := Execute(b1, env, plan);
        match outcome
        case Returned(trade) => (outcome, World(b2, world.trades + [trade]))
        case _ => (outcome, world.(book := b2))
  }
}
