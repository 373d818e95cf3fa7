/** What an emergency close leaves on the exchange: after PROTECTIVE_ORDER_FAILED_POSITION_CLOSED the position is gone, but
    a reduce-only guard may still be active (app/services/execution.py:425-461). */
module EntryLeftovers {
  import opened Trading
  import opened ExchangeModel
  import opened EntryProtocol
  import opened EntrySafety
  import ER = ExchangeRules

  /** The latest order of this role is active. */
  ghost predicate Alive(book: Book, plan: Plan, role: Role) {
    var now := OrdersOf(book.orders, plan.Symbol(), plan.Id(role));
    now != [] && Active(now[|now| - 1].status)
  }

  /** The adapter's query saw no order, and the submission after it landed as an active one. */
  predicate SubmissionLands(env: Env, tick: nat) {
    var query, submit := env(tick), env(tick + 1);
    && !query.crash && query.answered && submit.landed
    && submit.status != Canceled && submit.status != Expired && submit.status != Rejected
  }

  lemma PlacementLeaves(book: Book, env: Env, plan: Plan, role: Role, quantity: real, trigger: real)
    requires Absent(book, plan, role) && (role == Stop || role == Take)
    ensures var (_, after) := PlaceProtectiveOrder(book, env, plan, role, quantity, trigger);
      Alive(after, plan, role) <==> SubmissionLands(env, book.tick)
  {
    hide OrdersOf;
    var order := ProtectiveOrder(book, env(book.tick + 1), plan.Symbol(), plan.ExitSide(), quantity, trigger, plan.Id(role));
    OrdersOfAppend(book.orders, order, plan.Symbol(), plan.Id(role));
  }

  // ---------------------------------------------------------------- the protection phase, step by step

  /** The checks before the first guard is placed. */
  predicate Tried(book: Book, env: Env, plan: Plan, fill: Fill)
    requires plan.rules.Valid()
  {
    var direction := plan.assessment.direction;
    var takeProfit := ER.NormalizeProtectivePrice(plan.rules, ER.TakeProfitTarget(direction, fill.price, plan.stop, plan.multiple), direction, false);
    var (mark, _) := MarkPrice(book, env);
    && ER.StopOnLosingSide(direction, fill.price, plan.stop) && takeProfit.Ok?
    && mark.Go? && ProtectionAroundMark(direction, mark.value, plan.stop, takeProfit.value)
  }

  function StopPhase(book: Book, env: Env, plan: Plan, fill: Fill): (Reply<Payload>, Book) {
    PlaceProtectiveOrder(Ticked(book), env, plan, Stop, fill.quantity, plan.stop)
  }

  predicate StopVerified(book: Book, env: Env, plan: Plan, fill: Fill)
    requires plan.rules.Valid()
  {
    var (reply, _) := StopPhase(book, env, plan, fill);
    Tried(book, env, plan, fill) && reply.Answer? && VerifiedProtectiveOrder(reply.value, plan.Id(Stop)).Some?
  }

  /** The stop landed, and was not both verified and cancelled again. */
  predicate StopLeft(book: Book, env: Env, plan: Plan, fill: Fill)
    requires plan.rules.Valid()
  {
    && Tried(book, env, plan, fill) && SubmissionLands(env, book.tick + 1)
    && !(StopVerified(book, env, plan, fill) && env(Protect(book, env, plan, fill).1.tick).landed)
  }

  /** The take-profit landed, whatever its answer: nothing ever cancels it. */
  predicate TakeLeft(book: Book, env: Env, plan: Plan, fill: Fill)
    requires plan.rules.Valid()
  {
    StopVerified(book, env, plan, fill) && SubmissionLands(env, StopPhase(book, env, plan, fill).1.tick)
  }

  /** Which guards the failed protection phase leaves active. */
  lemma ProtectionLeaves(book: Book, env: Env, plan: Plan, fill: Fill)
    requires plan.rules.Valid() && Absent(book, plan, Stop) && Absent(book, plan, Take)
    requires Protect(book, env, plan, fill).0.Unprotected?
    ensures var (protecting, after) := Protect(book, env, plan, fill);
      && (protecting.stopPlaced <==> StopVerified(book, env, plan, fill))
      && (Alive(after, plan, Stop) <==> Tried(book, env, plan, fill) && SubmissionLands(env, book.tick + 1))
      && (Alive(after, plan, Take) <==> TakeLeft(book, env, plan, fill))
  {
    hide PlaceProtectiveOrder, OrdersOf, SubmissionLands, OnlyAdds, VerifiedProtectiveOrder, ER.NormalizeProtectivePrice, ER.TakeProfitTarget, DescribesProtection, AtMostOneEach;
    var symbol, start := plan.Symbol(), Ticked(book);
    if Tried(book, env, plan, fill) {
      var direction := plan.assessment.direction;
      var takeProfit := ER.NormalizeProtectivePrice(plan.rules, ER.TakeProfitTarget(direction, fill.price, plan.stop, plan.multiple), direction, false).value;
      var (stop, b1) := StopPhase(book, env, plan, fill);
      PlacementLeaves(start, env, plan, Stop, fill.quantity, plan.stop);
      ProtectivePhase(start, env, plan, Stop, fill.quantity, plan.stop);
      OnlyAddsFrame(start.orders, b1.orders, symbol, plan.Id(Stop), symbol, plan.Id(Take));
      if StopVerified(book, env, plan, fill) {
        var (take, b2) := PlaceProtectiveOrder(b1, env, plan, Take, fill.quantity, takeProfit);
        PlacementLeaves(b1, env, plan, Take, fill.quantity, takeProfit);
        ProtectivePhase(b1, env, plan, Take, fill.quantity, takeProfit);
        OnlyAddsFrame(b1.orders, b2.orders, symbol, plan.Id(Take), symbol, plan.Id(Stop));
      }
    }
  }

  // ---------------------------------------------------------------- cancelling and closing

  lemma {:induction false} CancelSpares(before: seq<Order>, after: seq<Order>, symbol: string, id: ClientId, other: ClientId)
    requires |after| == |before| && forall i :: 0 <= i < |before| ==> after[i] == Cancelled(before[i], symbol, id)
    ensures other != id ==> OrdersOf(after, symbol, other) == OrdersOf(before, symbol, other)
    ensures forall i :: 0 <= i < |OrdersOf(after, symbol, id)| ==> !Active(OrdersOf(after, symbol, id)[i].status)
  {
    if before != [] { CancelSpares(before[..|before| - 1], after[..|after| - 1], symbol, id, other); }
  }

  lemma CancelLeaves(book: Book, env: Env, plan: Plan)
    ensures var (_, after) := CancelOrder(book, env, plan.Symbol(), plan.Id(Stop));
      && (Alive(after, plan, Stop) <==> Alive(book, plan, Stop) && !env(book.tick).landed)
      && (Alive(after, plan, Take) <==> Alive(book, plan, Take))
  {
    hide OrdersOf, Active;
    var (_, after) := CancelOrder(book, env, plan.Symbol(), plan.Id(Stop));
    if env(book.tick).landed { CancelSpares(book.orders, after.orders, plan.Symbol(), plan.Id(Stop), plan.Id(Take)); }
  }

  lemma CloseLeaves(book: Book, env: Env, plan: Plan, quantity: real, role: Role)
    requires role == Stop || role == Take
    ensures Alive(EmergencyClose(book, env, plan, quantity).1, plan, role) <==> Alive(book, plan, role)
  {
    hide OrdersOf;
    var order := MarketOrder(book, env(book.tick), plan.Symbol(), plan.ExitSide(), quantity, plan.Id(Close), true);
    OrdersOfAppend(book.orders, order, plan.Symbol(), plan.Id(role));
  }

  lemma AbandonLeaves(book: Book, env: Env, plan: Plan, quantity: real, stopPlaced: bool)
    requires !AbandonPosition(book, env, plan, quantity, stopPlaced).0.Crashed?
    ensures var (_, after) := AbandonPosition(book, env, plan, quantity, stopPlaced);
      && (Alive(after, plan, Stop) <==> Alive(book, plan, Stop) && !(stopPlaced && env(book.tick).landed))
      && (Alive(after, plan, Take) <==> Alive(book, plan, Take))
  {
    hide Alive, CancelOrder, EmergencyClose;
    var (_, b1) := if stopPlaced then CancelOrder(book, env, plan.Symbol(), plan.Id(Stop)) else (Answer(()), book);
    if stopPlaced { CancelLeaves(book, env, plan); }
    CloseLeaves(b1, env, plan, quantity, Stop);
    CloseLeaves(b1, env, plan, quantity, Take);
  }

  // ---------------------------------------------------------------- the whole activation

  /** From a clean slate: when an activation reports its protection failed and its position closed, the position is as
      before, and a guard is still active exactly when it landed - for the stop, unless it was verified and its
      cancellation landed too. */
  lemma GuardsLeftExactlyWhen(book: Book, env: Env, plan: Plan)
    requires plan.Valid() && CleanSlate(book, plan)
    requires Execute(book, env, plan).0 == Raised(ProtectionFailedPositionClosed)
    ensures var (entry, b1) := ExistingOrNewEntry(book, env, plan); var after := Execute(book, env, plan).1;
      && entry.Answer? && VerifiedFilledOrder(entry.value, plan.Id(Entry), plan.quantity).Ok?
      && Net(after, plan.Symbol()) == Net(book, plan.Symbol())
      && (Alive(after, plan, Stop) <==> StopLeft(b1, env, plan, VerifiedFilledOrder(entry.value, plan.Id(Entry), plan.quantity).value))
      && (Alive(after, plan, Take) <==> TakeLeft(b1, env, plan, VerifiedFilledOrder(entry.value, plan.Id(Entry), plan.quantity).value))
  {
    hide Protect, AbandonPosition, ExistingOrNewEntry, Tried, StopVerified, TakeLeft, Alive, OrdersOf, EmergencyClose, SubmissionLands, Truthful;
    var (entry, b1) := ExistingOrNewEntry(book, env, plan);
    FailedProtection(book, env, plan);
    ProtectedOrRestored(book, env, plan);
    EntryFresh(book, env, plan);
    var order: Order :| EntryLanded(book, b1, plan, order) && Truthful(entry.value, order);
    OrdersOfAppend(book.orders, order, plan.Symbol(), plan.Id(Stop));
    OrdersOfAppend(book.orders, order, plan.Symbol(), plan.Id(Take));
    var fill := VerifiedFilledOrder(entry.value, plan.Id(Entry), plan.quantity).value;
    var (protecting, b2) := Protect(b1, env, plan, fill);
    ProtectionLeaves(b1, env, plan, fill);
    AbandonLeaves(b2, env, plan, fill.quantity, protecting.stopPlaced);
  }

  /** Only a failed protection ends this way. */
  lemma FailedProtection(book: Book, env: Env, plan: Plan)
    requires plan.Valid() && Execute(book, env, plan).0 == Raised(ProtectionFailedPositionClosed)
    ensures var (entry, b1) := ExistingOrNewEntry(book, env, plan);
      && entry.Answer? && VerifiedFilledOrder(entry.value, plan.Id(Entry), plan.quantity).Ok?
      && (var fill := VerifiedFilledOrder(entry.value, plan.Id(Entry), plan.quantity).value;
          var (protecting, b2) := Protect(b1, env, plan, fill);
          && protecting.Unprotected?
          && Execute(book, env, plan) == AbandonPosition(b2, env, plan, fill.quantity, protecting.stopPlaced))
  {
    hide Protect, AbandonPosition, ExistingOrNewEntry;
  }
}
