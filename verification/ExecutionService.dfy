/** The execution service as the source runs it: ordered calls on a live exchange and a trade store that is
    updated in place. Each method is proved equal to its specification in EntryProtocol. */
module ExecutionService {
  import opened Trading
  import opened ExchangeModel
  import opened EntryProtocol
  import opened EntrySafety
  import opened EntryRuns
  import ER = ExchangeRules

  class ExchangeClient {
    const env: Env
    var orders: seq<Order>
    var net: map<string, real>
    var tick: nat

    constructor (env: Env)
      ensures this.env == env && View() == Book([], map[], 0)
    {
      this.env := env;
      orders, net, tick := [], map[], 0;
    }

    function View(): Book
      reads this
    {
      Book(orders, net, tick)
    }

    method Query(symbol: string, id: ClientId) returns (reply: Reply<Payload>)
      modifies this
      ensures (reply, View()) == QueryOrder(old(View()), env, symbol, id)
    {
      reply := QueryOrder(View(), env, symbol, id).0;
      tick := tick + 1;
    }

    method PlaceMarket(symbol: string, side: Side, quantity: real, id: ClientId, reduceOnly: bool) returns (reply: Reply<Payload>)
      modifies this
      ensures (reply, View()) == PlaceMarketOrder(old(View()), env, symbol, side, quantity, id, reduceOnly)
    {
      var (answer, after) := PlaceMarketOrder(View(), env, symbol, side, quantity, id, reduceOnly);
      reply, orders, net, tick := answer, after.orders, after.net, after.tick;
    }

    method SubmitProtection(symbol: string, side: Side, quantity: real, trigger: real, id: ClientId) returns (reply: Reply<Payload>)
      modifies this
      ensures (reply, View()) == SubmitProtective(old(View()), env, symbol, side, quantity, trigger, id)
    {
      var (answer, after) := SubmitProtective(View(), env, symbol, side, quantity, trigger, id);
      reply, orders, tick := answer, after.orders, after.tick;
    }

    method Cancel(symbol: string, id: ClientId) returns (reply: Reply<()>)
      modifies this
      ensures (reply, View()) == CancelOrder(old(View()), env, symbol, id)
    {
      var (answer, after) := CancelOrder(View(), env, symbol, id);
      reply, orders, tick := answer, after.orders, after.tick;
    }

    method ReadOnly() returns (reply: Reply<Fault>)
      modifies this
      ensures (reply, View()) == Read(old(View()), env)
    {
      reply := Read(View(), env).0;
      tick := tick + 1;
    }

    /** The adapter of execution_private_adapter.py: query, submit, query again after an ambiguous failure. */
    method PlaceProtection(plan: Plan, role: Role, quantity: real, trigger: real) returns (reply: Reply<Payload>)
      modifies this
      ensures (reply, View()) == PlaceProtectiveOrder(old(View()), env, plan, role, quantity, trigger)
    {
      var existing := Query(plan.Symbol(), plan.Id(role));
      if !existing.NotFound? { return existing; }
      reply := SubmitProtection(plan.Symbol(), plan.ExitSide(), quantity, trigger, plan.Id(role));
      if reply.Failure? {
        var recovered := Query(plan.Symbol(), plan.Id(role));
        if !recovered.NotFound? { reply := recovered; }
      }
    }

    method Mark() returns (phase: Phase<real>)
      modifies this
      ensures (phase, View()) == MarkPrice(old(View()), env)
    {
      var reply := ReadOnly();
      if reply.Crash? { return Dead; }
      if !reply.Answer? { return Stopped(PrivateApiUnavailable); }
      var mark := reply.value.mark;
      phase := if mark.None? then Stopped(ExchangePayloadInvalid)
      else if mark.value <= 0.0 then Stopped(ExchangeRuleValidationFailed)
      else Go(mark.value);
    }
  }

  class DemoExecutionService {
    const settings: Settings
    const client: ExchangeClient
    var trades: seq<Trade>

    constructor (settings: Settings, client: ExchangeClient)
      ensures this.settings == settings && this.client == client && trades == []
    {
      this.settings, this.client, trades := settings, client, [];
    }

    function State(): World
      reads this, client
    {
      World(client.View(), trades)
    }

    method CheckBeforeSending(assessment: Assessment) returns (phase: Phase<Plan>)
      requires assessment.quantity.Some? && assessment.stop.Some?
      modifies client
      ensures (phase, client.View()) == Preflight(old(client.View()), client.env, assessment, settings.takeProfitMultiple)
    {
      var mode := client.ReadOnly();
      if mode.Crash? { return Dead; }
      if !mode.Answer? { return Stopped(PrivateApiUnavailable); }
      if mode.value.hedged { return Stopped(HedgeModeUnsupported); }
      var info := client.ReadOnly();
      if info.Crash? { return Dead; }
      if !info.Answer? { return Stopped(PrivateApiUnavailable); }
      if info.value.rules.None? || !info.value.rules.value.Valid() { return Stopped(ExchangeRuleValidationFailed); }
      var mark := client.Mark();
      if mark.Dead? { return Dead; }
      if mark.Stopped? { return Stopped(mark.code); }
      var plan := NormalizedPlan(assessment, info.value.rules.value, mark.value, settings.takeProfitMultiple);
      phase := if plan.Err? then Stopped(plan.error) else Go(plan.value);
    }

    method FindOrPlaceEntry(plan: Plan) returns (reply: Reply<Payload>)
      modifies client
      ensures (reply, client.View()) == ExistingOrNewEntry(old(client.View()), client.env, plan)
    {
      var existing := client.Query(plan.Symbol(), plan.Id(Entry));
      if !existing.NotFound? { return existing; }
      reply := client.PlaceMarket(plan.Symbol(), plan.EntrySide(), plan.quantity, plan.Id(Entry), false);
      if reply.Failure? {
        var recovered := client.Query(plan.Symbol(), plan.Id(Entry));
        if !recovered.NotFound? { reply := recovered; }
      }
    }

    method CloseAtMarket(plan: Plan, quantity: real) returns (phase: Phase<()>)
      modifies client
      ensures (phase, client.View()) == EmergencyClose(old(client.View()), client.env, plan, quantity)
    {
      var reply := client.PlaceMarket(plan.Symbol(), plan.ExitSide(), quantity, plan.Id(Close), true);
      if reply.Crash? { return Dead; }
      if reply.Answer? && VerifiedFilledOrder(reply.value, plan.Id(Close), quantity).Ok? { return Go(()); }
      phase := Stopped(UnprotectedPosition);
    }

    method PlaceProtections(plan: Plan, fill: Fill) returns (protecting: Protecting)
      requires plan.rules.Valid()
      modifies client
      ensures (protecting, client.View()) == Protect(old(client.View()), client.env, plan, fill)
    {
      var direction := plan.assessment.direction;
      if !ER.StopOnLosingSide(direction, fill.price, plan.stop) { return Unprotected(false); }
      var target := ER.TakeProfitTarget(direction, fill.price, plan.stop, plan.multiple);
      var takeProfit := ER.NormalizeProtectivePrice(plan.rules, target, direction, false);
      if takeProfit.Err? { return Unprotected(false); }
      var mark := client.Mark();
      if mark.Dead? { return ProtectingDead; }
      if mark.Stopped? || !ProtectionAroundMark(direction, mark.value, plan.stop, takeProfit.value) {
        return Unprotected(false);
      }
      var stop := client.PlaceProtection(plan, Stop, fill.quantity, plan.stop);
      if stop.Crash? { return ProtectingDead; }
      if !stop.Answer? { return Unprotected(false); }
      var stopOrder := VerifiedProtectiveOrder(stop.value, plan.Id(Stop));
      if stopOrder.None? { return Unprotected(false); }
      var take := client.PlaceProtection(plan, Take, fill.quantity, takeProfit.value);
      if take.Crash? { return ProtectingDead; }
      if !take.Answer? { return Unprotected(true); }
      var takeOrder := VerifiedProtectiveOrder(take.value, plan.Id(Take));
      if takeOrder.None? { return Unprotected(true); }
      protecting := Protected(Protection(takeProfit.value, stopOrder.value, takeOrder.value));
    }

    /** Verify the entry, protect it, or bring the position back (execution.py:366-461). */
    method Settle(plan: Plan, payload: Payload) returns (outcome: Outcome)
      requires plan.rules.Valid()
      modifies client
      ensures (outcome, client.View()) == AfterEntry(old(client.View()), client.env, plan, payload)
    {
      var verified := VerifiedFilledOrder(payload, plan.Id(Entry), plan.quantity);
      if verified.Err? {
        var partial := BoundedExecutedQuantity(payload, plan.quantity);
        if partial > 0.0 {
          var closed := CloseAtMarket(plan, partial);
          if closed.Dead? { return Crashed; }
          if closed.Stopped? { return Raised(closed.code); }
        }
        return Raised(verified.error);
      }
      var fill := verified.value;
      var protecting := PlaceProtections(plan, fill);
      if protecting.ProtectingDead? { return Crashed; }
      if protecting.Protected? { return Returned(TradeOf(plan, fill, protecting.protection)); }
      if protecting.stopPlaced {
        var cancel := client.Cancel(plan.Symbol(), plan.Id(Stop));
        if cancel.Crash? { return Crashed; }
      }
      var closed := CloseAtMarket(plan, fill.quantity);
      if closed.Dead? { return Crashed; }
      if closed.Stopped? { return Raised(closed.code); }
      outcome := Raised(ProtectionFailedPositionClosed);
    }

    /** Activation equals its specification and keeps the one-order-each invariant whatever happens. */
    method Activate(assessments: seq<Assessment>, request: Request) returns (outcome: Outcome)
      modifies this, client
      ensures (outcome, State()) == EntryProtocol.Activate(old(State()), client.env, settings, assessments, request)
      ensures AtMostOneEach(old(client.orders)) ==> AtMostOneEach(client.orders)
    {
      if AtMostOneEach(client.orders) {
        AttemptKeepsOneEach(State(), client.env, settings, assessments, request);
      }
      var refusal := LocalRefusal(settings, assessments, request, trades);
      if refusal.Some? { return Raised(refusal.value); }
      var assessment := FindAssessment(assessments, request.signal).value;
      PreflightPlan(client.View(), client.env, assessment, settings.takeProfitMultiple);
      var phase := CheckBeforeSending(assessment);
      if phase.Dead? { return Crashed; }
      if phase.Stopped? { return Raised(phase.code); }
      var entry := FindOrPlaceEntry(phase.value);
      if entry.Crash? { return Crashed; }
      if !entry.Answer? { return Raised(OrderRejected); }
      outcome := Settle(phase.value, entry.value);
      if outcome.Returned? { trades := trades + [outcome.trade]; }
    }

    /** One automation cycle (execution.py:182-199), equal to its specification below. */
    method AutoExecutePending(riskReady: bool, assessments: seq<Assessment>) returns (activated: nat, crashed: bool)
      modifies this, client
      ensures (State(), activated, crashed) == AutomationCycle(old(State()), client.env, settings, riskReady, assessments)
      ensures AtMostOneEach(old(client.orders)) ==> AtMostOneEach(client.orders)
    {
      hide AtMostOneEach, EntryProtocol.Activate;
      activated, crashed := 0, false;
      if !Ready(settings, riskReady) { return; }
      for i := 0 to |assessments|
        invariant AtMostOneEach(old(client.orders)) ==> AtMostOneEach(client.orders)
        invariant (State(), activated, false) == Automated(old(State()), client.env, settings, assessments, i)
      {
        var plan := assessments[i];
        if Executable(settings, plan) && !exists t :: t in trades && t.signal == plan.signal {
          var outcome := Activate(assessments, Request(plan.signal, None));
          if outcome.Crashed? {
            crashed := true;
            CrashEndsTheCycle(old(State()), client.env, settings, assessments, i + 1, |assessments|);
            return;
          }
          if outcome.Returned? { activated := activated + 1; }
        }
      }
    }
  }

  // ---------------------------------------------------------------- the automation cycle

  /** The service is READY: the risk engine is, and execution is enabled, configured and has a take-profit policy. */
  predicate Ready(settings: Settings, riskReady: bool) {
    riskReady && settings.enabled && settings.credentials && settings.takeProfitMultiple > 0.0 && settings.clientConfigured
  }

  /** The plan made of an assessment is EXECUTABLE. */
  predicate Executable(settings: Settings, assessment: Assessment) {
    assessment.approved && settings.takeProfitMultiple > 0.0 && settings.enabled && settings.credentials && settings.clientConfigured
  }

  /** The first `n` plans in order: each executable one whose signal has no tracked trade yet is activated, refusals and
      errors are passed over, a death ends the cycle. */
  function Automated(world: World, env: Env, settings: Settings, assessments: seq<Assessment>, n: nat): (World, nat, bool)
    requires n <= |assessments|
  {
    if n == 0 then (world, 0, false)
    else
      var (now, activated, crashed) := Automated(world, env, settings, assessments, n - 1);
      var plan := assessments[n - 1];
      if crashed || !Executable(settings, plan) || (exists t :: t in now.trades && t.signal == plan.signal) then (now, activated, crashed)
      else
        var (outcome, next) := EntryProtocol.Activate(now, env, settings, assessments, Request(plan.signal, None));
        (next, if outcome.Returned? then activated + 1 else activated, outcome.Crashed?)
  }

  function AutomationCycle(world: World, env: Env, settings: Settings, riskReady: bool, assessments: seq<Assessment>): (World, nat, bool) {
    if Ready(settings, riskReady) then Automated(world, env, settings, assessments, |assessments|) else (world, 0, false)
  }

  lemma {:induction false} CrashEndsTheCycle(world: World, env: Env, settings: Settings, assessments: seq<Assessment>, m: nat, n: nat)
    requires m <= n <= |assessments| && Automated(world, env, settings, assessments, m).2
    ensures Automated(world, env, settings, assessments, n) == Automated(world, env, settings, assessments, m)
  {
    hide EntryProtocol.Activate;
    if m < n { CrashEndsTheCycle(world, env, settings, assessments, m, n - 1); }
  }

  ghost predicate OneTradeEach(trades: seq<Trade>) {
    forall i, j :: 0 <= i < j < |trades| ==> trades[i].signal != trades[j].signal
  }

  /** Some approved assessment of this signal is among them. */
  ghost predicate Planned(assessments: seq<Assessment>, signal: string) {
    exists a :: a in assessments && a.signal == signal && a.approved
  }

  /** What a cycle does to the trades: it only appends, the count is exactly the number appended, every new trade is of
      an approved plan that had none, and one trade per signal stays one. */
  lemma {:induction false} CycleAddsOneTradeEach(world: World, env: Env, settings: Settings, assessments: seq<Assessment>, n: nat)
    requires n <= |assessments|
    ensures var (after, activated, _) := Automated(world, env, settings, assessments, n);
      && world.trades <= after.trades && |after.trades| == |world.trades| + activated
      && (OneTradeEach(world.trades) ==> OneTradeEach(after.trades))
      && (forall i :: |world.trades| <= i < |after.trades| ==>
            && Planned(assessments[..n], after.trades[i].signal)
            && (forall j :: 0 <= j < i ==> after.trades[j].signal != after.trades[i].signal))
  {
    hide EntryProtocol.Activate, Reaches, Execute;
    if n > 0 {
      CycleAddsOneTradeEach(world, env, settings, assessments, n - 1);
      var (now, activated, crashed) := Automated(world, env, settings, assessments, n - 1);
      var request := Request(assessments[n - 1].signal, None);
      ReturnedSignal(now, env, settings, assessments, request);
      OnlyReturnsRecord(now, env, settings, assessments, request);
      assert assessments[..n] == assessments[..n - 1] + [assessments[n - 1]];
      forall signal: string | Planned(assessments[..n - 1], signal) ensures Planned(assessments[..n], signal) {}
      if assessments[n - 1].approved { assert Planned(assessments[..n], request.signal); }
      hide Planned;
    }
  }

  lemma OnlyReturnsRecord(world: World, env: Env, settings: Settings, assessments: seq<Assessment>, request: Request)
    ensures var (outcome, after) := EntryProtocol.Activate(world, env, settings, assessments, request);
      !outcome.Returned? ==> after.trades == world.trades
  {
    hide Execute, Preflight;
  }

  /** A returned trade carries the requested signal and is appended to the store. */
  lemma ReturnedSignal(world: World, env: Env, settings: Settings, assessments: seq<Assessment>, request: Request)
    ensures var (outcome, after) := EntryProtocol.Activate(world, env, settings, assessments, request);
      outcome.Returned? ==> outcome.trade.signal == request.signal && after.trades == world.trades + [outcome.trade]
  {
    hide Execute, Preflight;
    var (outcome, after) := EntryProtocol.Activate(world, env, settings, assessments, request);
    ActivationShape(world, env, settings, assessments, request);
    if outcome.Returned? {
      var plan: Plan, start: Book :|
        && Reaches(world, env, settings, assessments, request, plan)
        && plan.Valid() && plan.assessment.approved && plan.assessment.signal == request.signal && plan.assessment in assessments
        && start == world.book.(tick := world.book.tick + 3)
        && Execute(start, env, plan) == (outcome, after.book)
        && after.trades == world.trades + (if outcome.Returned? then [outcome.trade] else []);
      OneSymbolOnly(start, env, plan);
    }
  }

  /** Whatever settings and plans, a cycle goes through the plans only when the risk engine is ready and execution is enabled,
      with credentials, a client and a positive take-profit multiple. It then takes the plans in order; the n-th is activated
      exactly when it is approved, its signal has no trade by then and no earlier activation killed the process. */
  lemma CycleExactly(world: World, env: Env, settings: Settings, riskReady: bool, assessments: seq<Assessment>, n: nat)
    requires n < |assessments|
    ensures var able := settings.enabled && settings.credentials && settings.clientConfigured && settings.takeProfitMultiple > 0.0;
      && AutomationCycle(world, env, settings, riskReady, assessments)
         == (if riskReady && able then Automated(world, env, settings, assessments, |assessments|) else (world, 0, false))
      && Automated(world, env, settings, assessments, 0) == (world, 0, false)
      && (var (now, count, dead) := Automated(world, env, settings, assessments, n);
          var due := able && assessments[n].approved && !dead && forall i :: 0 <= i < |now.trades| ==> now.trades[i].signal != assessments[n].signal;
          var (outcome, next) := EntryProtocol.Activate(now, env, settings, assessments, Request(assessments[n].signal, None));
          Automated(world, env, settings, assessments, n + 1)
          == if due then (next, if outcome.Returned? then count + 1 else count, outcome.Crashed?) else (now, count, dead))
  {
    hide EntryProtocol.Activate;
    var (now, _, _) := Automated(world, env, settings, assessments, n);
    if t :| t in now.trades && t.signal == assessments[n].signal {
      var i :| 0 <= i < |now.trades| && now.trades[i] == t;
    }
  }
}
