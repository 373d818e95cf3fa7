/** What activation guarantees, over every pattern of rejected, ambiguous or fatal calls. */
module EntrySafety {
  import opened Trading
  import opened ExchangeModel
  import opened EntryProtocol
  import ER = ExchangeRules

  // ---------------------------------------------------------------- shapes of states and answers

  /** No order of this signal has ever been accepted. */
  ghost predicate CleanSlate(book: Book, plan: Plan) {
    forall role: Role :: OrdersOf(book.orders, plan.Symbol(), plan.Id(role)) == []
  }

  /** At most one entry, stop and take-profit order for every symbol and signal. */
  ghost predicate AtMostOneEach(orders: seq<Order>) {
    forall symbol: string, id: ClientId :: id.role != Close ==> |OrdersOf(orders, symbol, id)| <= 1
  }

  ghost predicate Truthful(payload: Payload, order: Order) {
    && (payload.clientId.Some? ==> payload.clientId.value == order.id)
    && (payload.orderId.Some? ==> payload.orderId.value == order.number)
    && payload.status == order.status && payload.executed == order.executed
  }

  /** Nothing about other symbols moved. */
  ghost predicate OthersKept(before: Book, after: Book, symbol: string) {
    forall other: string :: other != symbol ==> Net(after, other) == Net(before, other)
  }

  /** The entry placement landed with a fill, its answer was lost, and the recovery query got no answer. */
  ghost predicate EntryUnconfirmed(env: Env, tick: nat) {
    var queried, placed, recovery := env(tick), env(tick + 1), env(tick + 2);
    && !queried.crash && queried.answered
    && !placed.crash && placed.landed && !placed.answered
    && !recovery.crash && !recovery.answered
    && placed.fill > 0.0
  }

  // ---------------------------------------------------------------- one placement at a time

  lemma AppendKeepsAtMostOne(orders: seq<Order>, order: Order)
    requires AtMostOneEach(orders)
    requires order.id.role == Close || OrdersOf(orders, order.symbol, order.id) == []
    ensures AtMostOneEach(orders + [order])
  {
    forall symbol: string, id: ClientId | id.role != Close
      ensures |OrdersOf(orders + [order], symbol, id)| <= 1
    {
      OrdersOfAppend(orders, order, symbol, id);
    }
  }

  lemma IdentitiesKeepAtMostOne(before: seq<Order>, after: seq<Order>)
    requires AtMostOneEach(before) && SameIdentities(before, after)
    ensures AtMostOneEach(after)
  {
    forall symbol: string, id: ClientId | id.role != Close
      ensures |OrdersOf(after, symbol, id)| <= 1
    {
      SameIdentitiesSameCount(before, after, symbol, id);
    }
  }

  /** `order` is the one entry order this phase added, and the position moved by exactly its fill. */
  ghost predicate EntryLanded(book: Book, after: Book, plan: Plan, order: Order) {
    && after.orders == book.orders + [order]
    && order.id == plan.Id(Entry) && order.symbol == plan.Symbol() && order.side == plan.EntrySide()
    && order.number == |book.orders|
    && 0.0 <= order.executed <= order.quantity == plan.quantity
    && (order.status == Filled <==> order.executed == order.quantity)
    && Net(after, plan.Symbol()) == Net(book, plan.Symbol()) + Signed(plan.assessment.direction, order.executed)
  }

  /** A found entry order is reported as it is and nothing is placed. */
  lemma EntryReused(book: Book, env: Env, plan: Plan)
    requires OrdersOf(book.orders, plan.Symbol(), plan.Id(Entry)) != []
    ensures var (entry, after) := ExistingOrNewEntry(book, env, plan);
      var found := OrdersOf(book.orders, plan.Symbol(), plan.Id(Entry));
      && after.orders == book.orders && after.net == book.net
      && !entry.NotFound?
      && (entry.Answer? ==> Truthful(entry.value, found[|found| - 1]))
  {
  }

  lemma EntryPlacement(book: Book, env: Env, plan: Plan)
    requires plan.quantity > 0.0
    ensures var order := MarketOrder(book, env(book.tick), plan.Symbol(), plan.EntrySide(), plan.quantity, plan.Id(Entry), false);
      var (placed, after) := PlaceMarketOrder(book, env, plan.Symbol(), plan.EntrySide(), plan.quantity, plan.Id(Entry), false);
      && OthersKept(book, after, plan.Symbol())
      && (env(book.tick).landed ==> EntryLanded(book, after, plan, order))
      && (!env(book.tick).landed ==> after.orders == book.orders && after.net == book.net && !placed.Answer?)
      && (placed.Answer? ==> Truthful(placed.value, order))
      && (order.executed > 0.0 <==> env(book.tick).fill > 0.0)
      && after.tick == book.tick + 1
      && (placed.Crash? <==> env(book.tick).crash) && !placed.NotFound?
      && (placed.Answer? <==> !env(book.tick).crash && env(book.tick).landed && env(book.tick).answered)
  {
  }

  lemma EntryLandedLater(book: Book, after: Book, earlier: Book, later: Book, plan: Plan, order: Order)
    requires EntryLanded(book, after, plan, order)
    requires earlier.orders == book.orders && earlier.net == book.net && later.orders == after.orders && later.net == after.net
    ensures EntryLanded(earlier, later, plan, order)
    ensures Net(later, plan.Symbol()) != Net(earlier, plan.Symbol()) <==> order.executed > 0.0
    ensures OrdersOf(later.orders, plan.Symbol(), plan.Id(Entry)) == OrdersOf(earlier.orders, plan.Symbol(), plan.Id(Entry)) + [order]
    ensures OthersKept(book, after, plan.Symbol()) ==> OthersKept(earlier, later, plan.Symbol())
  {
    if OthersKept(book, after, plan.Symbol()) {
      forall other: string | other != plan.Symbol() ensures Net(later, other) == Net(earlier, other) {
        assert Net(after, other) == Net(book, other);
      }
    }
    OrdersOfAppend(book.orders, order, plan.Symbol(), plan.Id(Entry));
  }

  /** The recovery query after a landed entry finds that order. */
  lemma RecoveredEntry(book: Book, env: Env, plan: Plan, order: Order)
    requires OrdersOf(book.orders, plan.Symbol(), plan.Id(Entry)) == [order]
    ensures var (recovered, _) := QueryOrder(book, env, plan.Symbol(), plan.Id(Entry));
      && !recovered.NotFound?
      && (recovered.Answer? ==> Truthful(recovered.value, order))
  {
  }

  /** With no entry order yet: either nothing landed, or exactly one order did and any answer describes it.
      When the phase ends in an error, the position has moved exactly if the entry is unconfirmed. */
  lemma EntryFresh(book: Book, env: Env, plan: Plan)
    requires plan.quantity > 0.0
    requires OrdersOf(book.orders, plan.Symbol(), plan.Id(Entry)) == []
    ensures var (entry, after) := ExistingOrNewEntry(book, env, plan);
      && OthersKept(book, after, plan.Symbol())
      && (|| (after.orders == book.orders && after.net == book.net && !entry.Answer?)
          || (exists order: Order :: EntryLanded(book, after, plan, order) && (entry.Answer? ==> Truthful(entry.value, order))))
      && (entry.Failure? || entry.NotFound? ==>
            (Net(after, plan.Symbol()) != Net(book, plan.Symbol()) <==> EntryUnconfirmed(env, book.tick)))
      && (entry.Answer? ==> !EntryUnconfirmed(env, book.tick))
  {
    hide PlaceMarketOrder, MarketOrder, OrdersOf, EntryLanded, Truthful, PayloadOf;
    var (existing, b1) := QueryOrder(book, env, plan.Symbol(), plan.Id(Entry));
    if existing.NotFound? {
      EntryPlacement(b1, env, plan);
      var order := MarketOrder(b1, env(b1.tick), plan.Symbol(), plan.EntrySide(), plan.quantity, plan.Id(Entry), false);
      var (placed, b2) := PlaceMarketOrder(b1, env, plan.Symbol(), plan.EntrySide(), plan.quantity, plan.Id(Entry), false);
      var (entry, after) := ExistingOrNewEntry(book, env, plan);
      if env(b1.tick).landed {
        EntryLandedLater(b1, b2, b1, b2, plan, order);
        RecoveredEntry(b2, env, plan, order);
        EntryLandedLater(b1, b2, book, after, plan, order);
      }
    }
  }

  /** A verified emergency close takes exactly `quantity` back out of the position. */
  lemma ClosePhase(book: Book, env: Env, plan: Plan, quantity: real)
    requires quantity > 0.0
    ensures var (closed, after) := EmergencyClose(book, env, plan, quantity);
      && OthersKept(book, after, plan.Symbol())
      && (closed.Go? ==> Net(after, plan.Symbol()) == Net(book, plan.Symbol()) - Signed(plan.assessment.direction, quantity))
      && (closed.Stopped? ==> closed.code == UnprotectedPosition)
      && (AtMostOneEach(book.orders) ==> AtMostOneEach(after.orders))
  {
    var (closed, after) := EmergencyClose(book, env, plan, quantity);
    var order := MarketOrder(book, env(book.tick), plan.Symbol(), plan.ExitSide(), quantity, plan.Id(Close), true);
    if AtMostOneEach(book.orders) { AppendKeepsAtMostOne(book.orders, order); }
  }

  /** The only orders this step can have added carry `id` on `symbol`. */
  ghost predicate OnlyAdds(before: seq<Order>, after: seq<Order>, symbol: string, id: ClientId) {
    || after == before
    || (exists order: Order :: order.symbol == symbol && order.id == id && after == before + [order])
  }

  lemma OnlyAddsFrame(before: seq<Order>, after: seq<Order>, symbol: string, id: ClientId, otherSymbol: string, other: ClientId)
    requires OnlyAdds(before, after, symbol, id) && (otherSymbol != symbol || other != id)
    ensures OrdersOf(after, otherSymbol, other) == OrdersOf(before, otherSymbol, other)
  {
    if after != before {
      var order: Order :| order.symbol == symbol && order.id == id && after == before + [order];
      OrdersOfAppend(before, order, otherSymbol, other);
    }
  }

  /** The answer describes the one order now carrying the id: the old one, or a fresh one for the
      requested quantity and trigger. */
  ghost predicate DescribesProtection(before: Book, after: Book, plan: Plan, role: Role, quantity: real, trigger: real, payload: Payload) {
    var found := OrdersOf(before.orders, plan.Symbol(), plan.Id(role));
    var now := OrdersOf(after.orders, plan.Symbol(), plan.Id(role));
    && now != [] && Truthful(payload, now[|now| - 1]) && now[|now| - 1].id == plan.Id(role)
    && (found != [] ==> now == found)
    && (found == [] ==>
          |now| == 1 && now[0].side == plan.ExitSide() && now[0].quantity == quantity && now[0].trigger == trigger && now[0].reduceOnly)
  }

  /** Submitting an absent protective order: what the book and a later query then show. */
  lemma FreshProtection(book: Book, env: Env, plan: Plan, role: Role, quantity: real, trigger: real)
    requires OrdersOf(book.orders, plan.Symbol(), plan.Id(role)) == [] && role != Close
    ensures var (submitted, after) := SubmitProtective(book, env, plan.Symbol(), plan.ExitSide(), quantity, trigger, plan.Id(role));
      && after.net == book.net
      && OnlyAdds(book.orders, after.orders, plan.Symbol(), plan.Id(role))
      && (AtMostOneEach(book.orders) ==> AtMostOneEach(after.orders))
      && (submitted.Answer? ==> DescribesProtection(book, after, plan, role, quantity, trigger, submitted.value))
      && (var (recovered, later) := QueryOrder(after, env, plan.Symbol(), plan.Id(role));
          recovered.Answer? ==> DescribesProtection(book, later, plan, role, quantity, trigger, recovered.value))
  {
    var order := ProtectiveOrder(book, env(book.tick), plan.Symbol(), plan.ExitSide(), quantity, trigger, plan.Id(role));
    OrdersOfAppend(book.orders, order, plan.Symbol(), plan.Id(role));
    if AtMostOneEach(book.orders) { AppendKeepsAtMostOne(book.orders, order); }
  }

  lemma ReusedProtection(book: Book, env: Env, plan: Plan, role: Role, quantity: real, trigger: real)
    ensures var (existing, after) := QueryOrder(book, env, plan.Symbol(), plan.Id(role));
      existing.Answer? ==> DescribesProtection(book, after, plan, role, quantity, trigger, existing.value)
  {
    FoundCarriesId(book.orders, plan.Symbol(), plan.Id(role));
  }

  lemma SameOrdersDescribe(before: Book, earlier: Book, plan: Plan, role: Role, quantity: real, trigger: real)
    requires before.orders == earlier.orders
    ensures forall after: Book, payload: Payload ::
      DescribesProtection(before, after, plan, role, quantity, trigger, payload)
      ==> DescribesProtection(earlier, after, plan, role, quantity, trigger, payload)
  {
  }

  /** One protective placement through the adapter: the position never moves, and at most the queried-for
      order is added. */
  lemma ProtectivePhase(book: Book, env: Env, plan: Plan, role: Role, quantity: real, trigger: real)
    requires role == Stop || role == Take
    ensures var (reply, after) := PlaceProtectiveOrder(book, env, plan, role, quantity, trigger);
      && after.net == book.net
      && OnlyAdds(book.orders, after.orders, plan.Symbol(), plan.Id(role))
      && (AtMostOneEach(book.orders) ==> AtMostOneEach(after.orders))
      && (reply.Answer? ==> DescribesProtection(book, after, plan, role, quantity, trigger, reply.value))
  {
    hide SubmitProtective, DescribesProtection, OrdersOf, AtMostOneEach, PayloadOf;
    var (existing, b1) := QueryOrder(book, env, plan.Symbol(), plan.Id(role));
    if existing.NotFound? {
      FreshProtection(b1, env, plan, role, quantity, trigger);
      SameOrdersDescribe(b1, book, plan, role, quantity, trigger);
    } else {
      ReusedProtection(book, env, plan, role, quantity, trigger);
    }
  }

  lemma {:induction false} FoundCarriesId(orders: seq<Order>, symbol: string, id: ClientId)
    ensures forall i :: 0 <= i < |OrdersOf(orders, symbol, id)| ==>
      OrdersOf(orders, symbol, id)[i].id == id && OrdersOf(orders, symbol, id)[i].symbol == symbol
  {
    if orders != [] {
      FoundCarriesId(orders[..|orders| - 1], symbol, id);
    }
  }

  // ---------------------------------------------------------------- the protection phase

  /** The latest order with this role's id has this exchange number and is active. */
  ghost predicate Guarding(book: Book, plan: Plan, role: Role, number: nat) {
    var now := OrdersOf(book.orders, plan.Symbol(), plan.Id(role));
    now != [] && now[|now| - 1].number == number && Active(now[|now| - 1].status)
  }

  /** It is the only one, reduce-only, on the exit side, for exactly this quantity and trigger. */
  ghost predicate GuardTerms(book: Book, plan: Plan, role: Role, quantity: real, trigger: real) {
    var now := OrdersOf(book.orders, plan.Symbol(), plan.Id(role));
    |now| == 1 && now[0].side == plan.ExitSide() && now[0].quantity == quantity && now[0].trigger == trigger && now[0].reduceOnly
  }

  ghost predicate Absent(book: Book, plan: Plan, role: Role) {
    OrdersOf(book.orders, plan.Symbol(), plan.Id(role)) == []
  }

  lemma VerifiedGuards(before: Book, after: Book, plan: Plan, role: Role, quantity: real, trigger: real, payload: Payload)
    requires DescribesProtection(before, after, plan, role, quantity, trigger, payload)
    requires VerifiedProtectiveOrder(payload, plan.Id(role)).Some?
    ensures Guarding(after, plan, role, VerifiedProtectiveOrder(payload, plan.Id(role)).value)
    ensures Absent(before, plan, role) ==> GuardTerms(after, plan, role, quantity, trigger)
  {
  }

  /** Protection never moves the position or the entry order; when it succeeds, both orders guard it. */
  lemma ProtectPhase(book: Book, env: Env, plan: Plan, fill: Fill)
    requires plan.rules.Valid() && plan.multiple > 0.0
    ensures var (protecting, after) := Protect(book, env, plan, fill);
      && after.net == book.net
      && OrdersOf(after.orders, plan.Symbol(), plan.Id(Entry)) == OrdersOf(book.orders, plan.Symbol(), plan.Id(Entry))
      && (AtMostOneEach(book.orders) ==> AtMostOneEach(after.orders))
      && (protecting.Protected? ==>
            var p := protecting.protection;
            && Guarding(after, plan, Stop, p.stopOrder) && Guarding(after, plan, Take, p.takeOrder)
            && (Absent(book, plan, Stop) ==> GuardTerms(after, plan, Stop, fill.quantity, plan.stop))
            && (Absent(book, plan, Take) ==> GuardTerms(after, plan, Take, fill.quantity, p.takeProfit))
            && ER.StopOnLosingSide(plan.assessment.direction, fill.price, plan.stop)
            && ER.RewardKept(fill.price, plan.stop, p.takeProfit, plan.multiple))
  {
    hide PlaceStop, Guarding, GuardTerms, AtMostOneEach, ER.NormalizeProtectivePrice, ER.TakeProfitTarget, ER.RewardKept, OrdersOf;
    var direction := plan.assessment.direction;
    var takeProfit := ER.NormalizeProtectivePrice(
      plan.rules, ER.TakeProfitTarget(direction, fill.price, plan.stop, plan.multiple), direction, false);
    if ER.StopOnLosingSide(direction, fill.price, plan.stop) && takeProfit.Ok? {
      ER.RewardAtLeastMultiple(plan.rules, direction, fill.price, plan.stop, plan.multiple);
      var (mark, b1) := MarkPrice(book, env);
      if mark.Go? && ProtectionAroundMark(direction, mark.value, plan.stop, takeProfit.value) {
        StopThenTake(b1, env, plan, fill, takeProfit.value);
      }
    }
  }

  lemma StopThenTake(book: Book, env: Env, plan: Plan, fill: Fill, takeProfit: real)
    ensures var (protecting, after) := PlaceStop(book, env, plan, fill, takeProfit);
      && after.net == book.net
      && OrdersOf(after.orders, plan.Symbol(), plan.Id(Entry)) == OrdersOf(book.orders, plan.Symbol(), plan.Id(Entry))
      && (AtMostOneEach(book.orders) ==> AtMostOneEach(after.orders))
      && (protecting.Protected? ==>
            var p := protecting.protection;
            && p.takeProfit == takeProfit
            && Guarding(after, plan, Stop, p.stopOrder) && Guarding(after, plan, Take, p.takeOrder)
            && (Absent(book, plan, Stop) ==> GuardTerms(after, plan, Stop, fill.quantity, plan.stop))
            && (Absent(book, plan, Take) ==> GuardTerms(after, plan, Take, fill.quantity, takeProfit)))
  {
    hide PlaceProtectiveOrder, DescribesProtection, OnlyAdds, VerifiedProtectiveOrder, AtMostOneEach, OrdersOf;
    var symbol := plan.Symbol();
    var (stop, b1) := PlaceProtectiveOrder(book, env, plan, Stop, fill.quantity, plan.stop);
    ProtectivePhase(book, env, plan, Stop, fill.quantity, plan.stop);
    OnlyAddsFrame(book.orders, b1.orders, symbol, plan.Id(Stop), symbol, plan.Id(Entry));
    OnlyAddsFrame(book.orders, b1.orders, symbol, plan.Id(Stop), symbol, plan.Id(Take));
    if stop.Answer? && VerifiedProtectiveOrder(stop.value, plan.Id(Stop)).Some? {
      VerifiedGuards(book, b1, plan, Stop, fill.quantity, plan.stop, stop.value);
      var (take, b2) := PlaceProtectiveOrder(b1, env, plan, Take, fill.quantity, takeProfit);
      ProtectivePhase(b1, env, plan, Take, fill.quantity, takeProfit);
      OnlyAddsFrame(b1.orders, b2.orders, symbol, plan.Id(Take), symbol, plan.Id(Entry));
      OnlyAddsFrame(b1.orders, b2.orders, symbol, plan.Id(Take), symbol, plan.Id(Stop));
      if take.Answer? && VerifiedProtectiveOrder(take.value, plan.Id(Take)).Some? {
        VerifiedGuards(b1, b2, plan, Take, fill.quantity, takeProfit, take.value);
      }
    }
  }

  /** Giving the position up closes exactly `quantity`, or says UnprotectedPosition. */
  lemma AbandonPhase(book: Book, env: Env, plan: Plan, quantity: real, stopPlaced: bool)
    requires quantity > 0.0
    ensures var (outcome, after) := AbandonPosition(book, env, plan, quantity, stopPlaced);
      && !outcome.Returned?
      && OthersKept(book, after, plan.Symbol())
      && (AtMostOneEach(book.orders) ==> AtMostOneEach(after.orders))
      && (outcome.Raised? ==> outcome.code == UnprotectedPosition || outcome.code == ProtectionFailedPositionClosed)
      && (outcome == Raised(ProtectionFailedPositionClosed) ==>
            Net(after, plan.Symbol()) == Net(book, plan.Symbol()) - Signed(plan.assessment.direction, quantity))
  {
    var (cancel, b1) := if stopPlaced then CancelOrder(book, env, plan.Symbol(), plan.Id(Stop)) else (Answer(()), book);
    assert SameIdentities(book.orders, b1.orders);
    if AtMostOneEach(book.orders) { IdentitiesKeepAtMostOne(book.orders, b1.orders); }
    ClosePhase(b1, env, plan, quantity);
  }

  // ---------------------------------------------------------------- main results

  /** `trade` is what the exchange holds for this signal: one filled entry for its executed quantity and
      one active stop and take-profit with the recorded order numbers. */
  ghost predicate DescribedBy(trade: Trade, book: Book, plan: Plan) {
    var entries := OrdersOf(book.orders, plan.Symbol(), plan.Id(Entry));
    && |entries| == 1 && entries[0].number == trade.entryOrder
    && entries[0].status == Filled && entries[0].executed == trade.executed
    && |OrdersOf(book.orders, plan.Symbol(), plan.Id(Stop))| == 1 && Guarding(book, plan, Stop, trade.stopOrder)
    && |OrdersOf(book.orders, plan.Symbol(), plan.Id(Take))| == 1 && Guarding(book, plan, Take, trade.takeOrder)
    && 0.0 < trade.executed <= plan.quantity
    && trade.signal == plan.assessment.signal && trade.symbol == plan.Symbol()
    && trade.direction == plan.assessment.direction && trade.requested == plan.quantity
    && trade.stopPrice == plan.stop
    && ER.StopOnLosingSide(trade.direction, trade.entryPrice, trade.stopPrice)
    && ER.RewardKept(trade.entryPrice, trade.stopPrice, trade.takeProfitPrice, plan.multiple)
  }

  /** A fill that does not verify is closed again in full, or the error says UnprotectedPosition. */
  lemma RejectedFillPhase(book: Book, env: Env, plan: Plan, payload: Payload)
    requires plan.Valid() && VerifiedFilledOrder(payload, plan.Id(Entry), plan.quantity).Err?
    ensures var (outcome, after) := AfterEntry(book, env, plan, payload);
      && !outcome.Returned?
      && OthersKept(book, after, plan.Symbol())
      && (AtMostOneEach(book.orders) ==> AtMostOneEach(after.orders))
      && (outcome.Raised? ==> outcome.code != OrderRejected)
      && (outcome.Raised? && outcome.code != UnprotectedPosition && 0.0 <= payload.executed <= plan.quantity ==>
            Net(after, plan.Symbol()) == Net(book, plan.Symbol()) - Signed(plan.assessment.direction, payload.executed))
  {
    hide EmergencyClose, AtMostOneEach;
    var partial := BoundedExecutedQuantity(payload, plan.quantity);
    if partial > 0.0 { ClosePhase(book, env, plan, partial); }
  }

  /** From the entry answer on. `order` is the exchange's entry order that the payload describes. */
  lemma AfterEntryPhase(book: Book, env: Env, plan: Plan, payload: Payload, order: Order)
    requires plan.Valid() && Truthful(payload, order)
    ensures var (outcome, after) := AfterEntry(book, env, plan, payload);
      && OthersKept(book, after, plan.Symbol())
      && (AtMostOneEach(book.orders) ==> AtMostOneEach(after.orders))
      && (outcome.Returned? ==>
            && Net(after, plan.Symbol()) == Net(book, plan.Symbol())
            && 0.0 < outcome.trade.executed == order.executed <= plan.quantity
            && (OrdersOf(book.orders, plan.Symbol(), plan.Id(Entry)) == [order] && AtMostOneEach(book.orders) ==>
                  DescribedBy(outcome.trade, after, plan))
            && Guarding(after, plan, Stop, outcome.trade.stopOrder) && Guarding(after, plan, Take, outcome.trade.takeOrder)
            && (Absent(book, plan, Stop) ==> GuardTerms(after, plan, Stop, outcome.trade.executed, outcome.trade.stopPrice))
            && (Absent(book, plan, Take) ==> GuardTerms(after, plan, Take, outcome.trade.executed, outcome.trade.takeProfitPrice)))
      && (outcome.Raised? ==> outcome.code != OrderRejected)
      && (outcome.Raised? && outcome.code != UnprotectedPosition && 0.0 <= order.executed <= plan.quantity ==>
            Net(after, plan.Symbol()) == Net(book, plan.Symbol()) - Signed(plan.assessment.direction, order.executed))
  {
    var verified := VerifiedFilledOrder(payload, plan.Id(Entry), plan.quantity);
    if verified.Err? {
      hide AfterEntry, VerifiedFilledOrder, Guarding, GuardTerms, DescribedBy;
      RejectedFillPhase(book, env, plan, payload);
    } else {
      hide Protect, AbandonPosition, Guarding, GuardTerms, DescribedBy;
      var fill := verified.value;
      ProtectPhase(book, env, plan, fill);
      var (protecting, b1) := Protect(book, env, plan, fill);
      if protecting.Unprotected? { AbandonPhase(b1, env, plan, fill.quantity, protecting.stopPlaced); }
      if protecting.Protected? && OrdersOf(book.orders, plan.Symbol(), plan.Id(Entry)) == [order] && AtMostOneEach(book.orders) {
        Described(b1, plan, fill, protecting.protection, order);
      }
    }
  }

  lemma Described(book: Book, plan: Plan, fill: Fill, protection: Protection, order: Order)
    requires AtMostOneEach(book.orders) && OrdersOf(book.orders, plan.Symbol(), plan.Id(Entry)) == [order]
    requires order.status == Filled && fill == Fill(order.number, fill.price, order.executed)
    requires 0.0 < fill.quantity <= plan.quantity
    requires Guarding(book, plan, Stop, protection.stopOrder) && Guarding(book, plan, Take, protection.takeOrder)
    requires ER.StopOnLosingSide(plan.assessment.direction, fill.price, plan.stop)
    requires ER.RewardKept(fill.price, plan.stop, protection.takeProfit, plan.multiple)
    ensures DescribedBy(TradeOf(plan, fill, protection), book, plan)
  {
  }

  /** Both protective orders are active under the trade's numbers: each the only one of its role, reduce-only, on the
      exit side, for the executed quantity, at the trade's stop and take-profit prices. */
  ghost predicate Guarded(book: Book, plan: Plan, trade: Trade) {
    && Guarding(book, plan, Stop, trade.stopOrder) && GuardTerms(book, plan, Stop, trade.executed, trade.stopPrice)
    && Guarding(book, plan, Take, trade.takeOrder) && GuardTerms(book, plan, Take, trade.executed, trade.takeProfitPrice)
  }

  /** Clean slate: a returned trade is live and guarded for exactly its quantity; every error other than
      UnprotectedPosition leaves the position as it was, except - and exactly - when the entry placement
      landed unanswered and the recovery query went unanswered too. Other symbols never move. */
  lemma ProtectedOrRestored(book: Book, env: Env, plan: Plan)
    requires plan.Valid() && CleanSlate(book, plan)
    ensures var (outcome, after) := Execute(book, env, plan);
      && OthersKept(book, after, plan.Symbol())
      && (outcome.Returned? ==>
            && Net(after, plan.Symbol()) == Net(book, plan.Symbol()) + Signed(plan.assessment.direction, outcome.trade.executed)
            && 0.0 < outcome.trade.executed <= plan.assessment.quantity.value
            && Guarded(after, plan, outcome.trade))
      && (outcome.Raised? && outcome.code != UnprotectedPosition ==>
            (Net(after, plan.Symbol()) != Net(book, plan.Symbol()) <==> EntryUnconfirmed(env, book.tick)))
  {
    hide AfterEntry, Guarding, GuardTerms, Truthful, ExistingOrNewEntry, EntryUnconfirmed;
    EntryFresh(book, env, plan);
    var (entry, b1) := ExistingOrNewEntry(book, env, plan);
    if entry.Answer? {
      var order: Order :| EntryLanded(book, b1, plan, order) && Truthful(entry.value, order);
      OrdersOfAppend(book.orders, order, plan.Symbol(), plan.Id(Stop));
      OrdersOfAppend(book.orders, order, plan.Symbol(), plan.Id(Take));
      AfterEntryPhase(b1, env, plan, entry.value, order);
    }
  }

  /** Every activation, from any state, keeps at most one entry, stop and take-profit order per signal -
      also when the process dies in the middle - and a returned trade describes those orders. */
  lemma OneOrderEach(book: Book, env: Env, plan: Plan)
    requires plan.Valid() && AtMostOneEach(book.orders)
    ensures var (outcome, after) := Execute(book, env, plan);
      && AtMostOneEach(after.orders)
      && (outcome.Returned? ==> DescribedBy(outcome.trade, after, plan))
  {
    var (entry, b1) := ExistingOrNewEntry(book, env, plan);
    var found := OrdersOf(book.orders, plan.Symbol(), plan.Id(Entry));
    if found != [] {
      EntryReused(book, env, plan);
      if entry.Answer? { AfterEntryPhase(b1, env, plan, entry.value, found[0]); }
    } else {
      EntryFresh(book, env, plan);
      if b1.orders != book.orders {
        var order: Order :| EntryLanded(book, b1, plan, order) && (entry.Answer? ==> Truthful(entry.value, order));
        AppendKeepsAtMostOne(book.orders, order);
        OrdersOfAppend(book.orders, order, plan.Symbol(), plan.Id(Entry));
        if entry.Answer? { AfterEntryPhase(b1, env, plan, entry.value, order); }
      }
    }
  }

  /** A retry is not a second position: the trade an activation returns added its quantity to the position
      exactly when no entry order existed before. After an emergency close the old filled entry is found
      again, so the returned trade then has no new position behind it. */
  lemma ReturnedTradeIsNewExactlyWhenEntryWasAbsent(book: Book, env: Env, plan: Plan)
    requires plan.Valid() && AtMostOneEach(book.orders)
    ensures var (outcome, after) := Execute(book, env, plan);
      outcome.Returned? ==>
        Net(after, plan.Symbol()) ==
        Net(book, plan.Symbol()) + (if Absent(book, plan, Entry) then Signed(plan.assessment.direction, outcome.trade.executed) else 0.0)
  {
    var (entry, b1) := ExistingOrNewEntry(book, env, plan);
    var found := OrdersOf(book.orders, plan.Symbol(), plan.Id(Entry));
    if entry.Answer? {
      if found != [] {
        EntryReused(book, env, plan);
        AfterEntryPhase(b1, env, plan, entry.value, found[0]);
      } else {
        EntryFresh(book, env, plan);
        var order: Order :| EntryLanded(book, b1, plan, order) && Truthful(entry.value, order);
        AfterEntryPhase(b1, env, plan, entry.value, order);
      }
    }
  }
}
