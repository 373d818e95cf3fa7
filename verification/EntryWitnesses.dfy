/** Concrete runs behind the exact conditions: a retry that returns a trade without a position, a take-profit left active
    without a position, and a filled, protected trade that the worker rejects because its target lies off the tick grid. */
module EntryWitnesses {
  import opened Trading
  import opened ExchangeModel
  import opened EntryProtocol
  import opened EntrySafety
  import opened EntryRuns
  import opened EntryLeftovers
  import ER = ExchangeRules
  import W = ExecutionWorker
  import Q = CommandQueue

  const Symbol := "BTCUSDT"
  const Ready := Settings(true, true, true, 2.0)

  // ---------------------------------------------------------------- a retry after an emergency close

  /** Call 5, the mark price of the first protection, gets no answer; everything else works. */
  function MarkLost(tick: nat): Fault { if tick == 5 then Healthy().(answered := false) else Healthy() }

  function EntryOrder(): Order { Order(0, Symbol, ClientId(Entry, "s"), Buy, 1.0, 0.0, 1.0, Filled, false) }
  function CloseOrder(): Order { Order(1, Symbol, ClientId(Close, "s"), Sell, 1.0, 0.0, 1.0, Filled, true) }
  function Entered(tick: nat): Book { Book([EntryOrder()], map[Symbol := 1.0], tick) }
  function Closed(tick: nat): Book { Book([EntryOrder(), CloseOrder()], map[Symbol := 0.0], tick) }
  function EntryPayload(): Payload { Payload(Some(ClientId(Entry, "s")), Some(0), Filled, Some(10.0), 1.0) }

  lemma FirstEntry()
    ensures ExistingOrNewEntry(Book([], map[], 3), MarkLost, LostPlan) == (Answer(EntryPayload()), Entered(5))
  {
    assert [] + [EntryOrder()] == [EntryOrder()];
  }

  lemma TargetIsTwelve()
    ensures ER.NormalizeProtectivePrice(HealthyRules, ER.TakeProfitTarget(Long, 10.0, 9.0, 2.0), Long, false) == Ok(12.0)
  {
    WholeNumbersStay(12);
    WholeNumbersStay(-12);
    hide ER.RoundDown;
  }

  /** The first activation: filled, not protected, closed again. */
  lemma FirstIsClosed()
    ensures AfterEntry(Entered(5), MarkLost, LostPlan, EntryPayload()) == (Raised(ProtectionFailedPositionClosed), Closed(7))
  {
    TargetIsTwelve();
    hide ER.NormalizeProtectivePrice, ER.TakeProfitTarget, OrdersOf;
    assert [EntryOrder()] + [CloseOrder()] == [EntryOrder(), CloseOrder()];
    assert MarketOrder(Entered(6), MarkLost(6), Symbol, Sell, 1.0, ClientId(Close, "s"), true) == CloseOrder();
    assert map[Symbol := 1.0][Symbol := 0.0] == map[Symbol := 0.0];
    assert Land(Entered(6), CloseOrder()) == Closed(6);
    assert EmergencyClose(Entered(6), MarkLost, LostPlan, 1.0) == (Go(()), Closed(7));
  }

  lemma OldEntryIsFound()
    ensures ExistingOrNewEntry(Closed(10), MarkLost, LostPlan) == (Answer(EntryPayload()), Closed(11))
  {
    EntriesAmong();
    hide OrdersOf;
  }

  lemma EntriesAmong()
    ensures OrdersOf([EntryOrder(), CloseOrder()], Symbol, ClientId(Entry, "s")) == [EntryOrder()]
    ensures OrdersOf([EntryOrder(), CloseOrder()], Symbol, ClientId(Stop, "s")) == []
    ensures OrdersOf([EntryOrder(), CloseOrder()], Symbol, ClientId(Take, "s")) == []
  {
    assert [EntryOrder(), CloseOrder()][..1] == [EntryOrder()] && [EntryOrder()][..0] == [];
  }

  /** The second activation protects the old entry and returns it, with no position left to protect. */
  lemma SecondIsReturned()
    ensures var (outcome, after) := AfterEntry(Closed(11), MarkLost, LostPlan, EntryPayload());
      outcome.Returned? && outcome.trade.executed == 1.0 && Net(after, Symbol) == 0.0
  {
    TargetIsTwelve();
    EntriesAmong();
    hide ER.NormalizeProtectivePrice, ER.TakeProfitTarget, OrdersOf;
    var stop := ProtectiveOrder(Closed(13), MarkLost(13), Symbol, Sell, 1.0, 9.0, ClientId(Stop, "s"));
    OrdersOfAppend([EntryOrder(), CloseOrder()], stop, Symbol, ClientId(Take, "s"));
    var stopped := Closed(14).(orders := [EntryOrder(), CloseOrder()] + [stop]);
    var (placed, after) := PlaceProtectiveOrder(Closed(12), MarkLost, LostPlan, Stop, 1.0, 9.0);
    assert placed == Answer(PayloadOf(stop, MarkLost(13))) && after == stopped;
    var (take, end) := PlaceProtectiveOrder(stopped, MarkLost, LostPlan, Take, 1.0, 12.0);
    assert take.Answer? && end.net == stopped.net;
  }

  /** Two activations of one signal from an empty book: the first ends closed again, the second returns a trade of one
      unit while the position is zero. */
  lemma RetryReturnsATradeWithoutAPosition()
    ensures var start := World(Book([], map[], 0), []);
      var (first, middle) := Activate(start, MarkLost, Ready, [LostAssessment], Request("s", None));
      var (second, end) := Activate(middle, MarkLost, Ready, [LostAssessment], Request("s", None));
      && first == Raised(ProtectionFailedPositionClosed) && Net(middle.book, Symbol) == 0.0
      && second.Returned? && second.trade.executed == 1.0 && Net(end.book, Symbol) == 0.0
  {
    hide Preflight, ExistingOrNewEntry, AfterEntry;
    assert FindAssessment([LostAssessment], "s") == Some(LostAssessment);
    HealthyPreflight(Book([], map[], 0), MarkLost);
    FirstEntry();
    FirstIsClosed();
    HealthyPreflight(Closed(7), MarkLost);
    OldEntryIsFound();
    SecondIsReturned();
  }

  // ---------------------------------------------------------------- a guard left without a position

  /** Calls 9 and 10, the take-profit submission and the query after it, get no answer; everything works. */
  function TakeLost(tick: nat): Fault { if tick == 9 || tick == 10 then Healthy().(answered := false) else Healthy() }

  function StopOrder(): Order { Order(1, Symbol, ClientId(Stop, "s"), Sell, 1.0, 9.0, 0.0, New, true) }
  function TakeOrder(): Order { Order(2, Symbol, ClientId(Take, "s"), Sell, 1.0, 12.0, 0.0, New, true) }
  function Stopped(tick: nat): Book { Book([EntryOrder(), StopOrder()], map[Symbol := 1.0], tick) }
  function Unconfirmed(tick: nat): Book { Book([EntryOrder(), StopOrder(), TakeOrder()], map[Symbol := 1.0], tick) }

  lemma HealthyEntry()
    ensures ExistingOrNewEntry(Book([], map[], 3), TakeLost, LostPlan) == (Answer(EntryPayload()), Entered(5))
  {
    assert [] + [EntryOrder()] == [EntryOrder()];
  }

  lemma StopIsPlaced()
    ensures PlaceProtectiveOrder(Entered(6), TakeLost, LostPlan, Stop, 1.0, 9.0) == (Answer(PayloadOf(StopOrder(), Healthy())), Stopped(8))
  {
    OrdersOfAppend([], EntryOrder(), Symbol, ClientId(Stop, "s"));
    assert [] + [EntryOrder()] == [EntryOrder()];
    NoOrders(ClientId(Stop, "s"));
    hide OrdersOf;
    assert [EntryOrder()] + [StopOrder()] == [EntryOrder(), StopOrder()];
    assert ProtectiveOrder(Entered(7), Healthy(), Symbol, Sell, 1.0, 9.0, ClientId(Stop, "s")) == StopOrder();
  }

  lemma TakeLandsUnanswered()
    ensures PlaceProtectiveOrder(Stopped(8), TakeLost, LostPlan, Take, 1.0, 12.0) == (Failure, Unconfirmed(11))
  {
    OrdersOfAppend([], EntryOrder(), Symbol, ClientId(Take, "s"));
    OrdersOfAppend([EntryOrder()], StopOrder(), Symbol, ClientId(Take, "s"));
    assert [] + [EntryOrder()] == [EntryOrder()] && [EntryOrder()] + [StopOrder()] == [EntryOrder(), StopOrder()];
    NoOrders(ClientId(Take, "s"));
    hide OrdersOf;
    assert [EntryOrder(), StopOrder()] + [TakeOrder()] == [EntryOrder(), StopOrder(), TakeOrder()];
    assert ProtectiveOrder(Stopped(9), TakeLost(9), Symbol, Sell, 1.0, 12.0, ClientId(Take, "s")) == TakeOrder();
  }

  lemma FilledEntry()
    ensures VerifiedFilledOrder(EntryPayload(), ClientId(Entry, "s"), 1.0) == Ok(Fill(0, 10.0, 1.0))
  {
  }

  lemma TakeIsNotConfirmed()
    ensures Protect(Entered(5), TakeLost, LostPlan, Fill(0, 10.0, 1.0)) == (Unprotected(true), Unconfirmed(11))
    ensures Tried(Entered(5), TakeLost, LostPlan, Fill(0, 10.0, 1.0))
  {
    hide ER.NormalizeProtectivePrice, ER.TakeProfitTarget, PlaceProtectiveOrder;
    TargetIsTwelve();
    StopIsPlaced();
    TakeLandsUnanswered();
  }

  /** The stop is cancelled, the position closed. */
  lemma AbandonedWithTake()
    ensures var (outcome, after) := AbandonPosition(Unconfirmed(11), TakeLost, LostPlan, 1.0, true);
      outcome == Raised(ProtectionFailedPositionClosed) && Net(after, Symbol) == 0.0
  {
    var (_, b1) := CancelOrder(Unconfirmed(11), TakeLost, Symbol, ClientId(Stop, "s"));
    assert b1.net == map[Symbol := 1.0] && b1.tick == 12;
    hide CancelOrder;
  }

  /** One activation from an empty book reports its position closed, and it is; but its take-profit is still active. */
  lemma TakeProfitIsLeftWithoutAPosition()
    ensures var start := World(Book([], map[], 0), []);
      var (outcome, end) := Activate(start, TakeLost, Ready, [LostAssessment], Request("s", None));
      && outcome == Raised(ProtectionFailedPositionClosed) && Net(end.book, Symbol) == 0.0
      && !Alive(end.book, LostPlan, Stop) && Alive(end.book, LostPlan, Take)
  {
    hide Preflight, ExistingOrNewEntry, Protect, AbandonPosition, Alive, PlaceProtectiveOrder, Tried;
    assert FindAssessment([LostAssessment], "s") == Some(LostAssessment);
    HealthyPreflight(Book([], map[], 0), TakeLost);
    HealthyEntry();
    FilledEntry();
    TakeIsNotConfirmed();
    AbandonedWithTake();
    StopIsPlaced();
    LostPlanIsValid();
    GuardsLeftExactlyWhen(Book([], map[], 3), TakeLost, LostPlan);
  }

  lemma LostPlanIsValid()
    ensures LostPlan.Valid() && CleanSlate(Book([], map[], 3), LostPlan)
  {
    LostNormalizedPlan();
  }

  // ---------------------------------------------------------------- a target off the tick grid

  /** Everything works; the entry fills at 10.5, so that the raw target is 13.5 on a tick of 1. */
  function FillsBetweenTicks(tick: nat): Fault { Healthy().(average := Some(10.5)) }

  function OddPayload(): Payload { Payload(Some(ClientId(Entry, "s")), Some(0), Filled, Some(10.5), 1.0) }

  lemma OddEntry()
    ensures ExistingOrNewEntry(Book([], map[], 3), FillsBetweenTicks, LostPlan) == (Answer(OddPayload()), Entered(5))
  {
    assert [] + [EntryOrder()] == [EntryOrder()];
  }

  lemma TargetIsRoundedToFourteen()
    ensures ER.TakeProfitTarget(Long, 10.5, 9.0, 2.0) == 13.5
    ensures ER.NormalizeProtectivePrice(HealthyRules, 13.5, Long, false) == Ok(14.0)
  {
    assert (-13.5 / 1.0).Floor == -14;
    WholeNumbersStay(14);
  }

  function OddStop(): Order { Order(1, Symbol, ClientId(Stop, "s"), Sell, 1.0, 9.0, 0.0, New, true) }
  function OddStopped(): Book { Book([EntryOrder(), OddStop()], map[Symbol := 1.0], 8) }

  lemma OddStopIsPlaced()
    ensures PlaceProtectiveOrder(Entered(6), FillsBetweenTicks, LostPlan, Stop, 1.0, 9.0) == (Answer(PayloadOf(OddStop(), FillsBetweenTicks(7))), OddStopped())
  {
    OrdersOfAppend([], EntryOrder(), Symbol, ClientId(Stop, "s"));
    assert [] + [EntryOrder()] == [EntryOrder()];
    NoOrders(ClientId(Stop, "s"));
    hide OrdersOf;
    assert [EntryOrder()] + [OddStop()] == [EntryOrder(), OddStop()];
    assert ProtectiveOrder(Entered(7), FillsBetweenTicks(7), Symbol, Sell, 1.0, 9.0, ClientId(Stop, "s")) == OddStop();
  }

  lemma OddTakeIsPlaced()
    ensures var take := PlaceProtectiveOrder(OddStopped(), FillsBetweenTicks, LostPlan, Take, 1.0, 14.0).0;
      take.Answer? && take.value.clientId == Some(ClientId(Take, "s")) && take.value.status == New && take.value.orderId.Some?
  {
    OrdersOfAppend([], EntryOrder(), Symbol, ClientId(Take, "s"));
    OrdersOfAppend([EntryOrder()], OddStop(), Symbol, ClientId(Take, "s"));
    assert [] + [EntryOrder()] == [EntryOrder()] && [EntryOrder()] + [OddStop()] == [EntryOrder(), OddStop()];
    NoOrders(ClientId(Take, "s"));
    hide OrdersOf;
  }

  lemma OddIsProtected()
    ensures var outcome := AfterEntry(Entered(5), FillsBetweenTicks, LostPlan, OddPayload()).0;
      outcome.Returned? && outcome.trade.(stopOrder := 0, takeOrder := 0)
                           == Trade("s", Symbol, Long, 10.5, 9.0, 14.0, 0, 0, 0, 1.0, 1.0, 1.0)
  {
    hide ER.NormalizeProtectivePrice, ER.TakeProfitTarget, PlaceProtectiveOrder;
    TargetIsRoundedToFourteen();
    OddStopIsPlaced();
    OddTakeIsPlaced();
  }

  lemma NoOrders(id: ClientId)
    ensures OrdersOf([], Symbol, id) == []
  {
  }

  /** A whole activation from an empty book returns a filled and protected trade, and the worker refuses it for any
      command that approved it. */
  lemma OffGridTradeIsRejected(command: Q.Command, entryOrder: string, stopOrder: string, takeOrder: string)
    requires command.signal == "s" && command.symbol == Symbol && command.direction == Long
    requires command.approvedQuantity >= 1.0 && command.multiple == 2.0 && stopOrder != "" && takeOrder != ""
    ensures var outcome := Activate(World(Book([], map[], 0), []), FillsBetweenTicks, Ready, [LostAssessment], Request("s", None)).0;
      outcome.Returned? && W.TradeConflict(command, W.RecordOf(outcome.trade, entryOrder, stopOrder, takeOrder)) == Some("TAKE_PROFIT_R_MULTIPLE_CONFLICT")
  {
    hide Preflight, ExistingOrNewEntry, AfterEntry, ER.TakeProfitTarget, W.Prefix;
    assert FindAssessment([LostAssessment], "s") == Some(LostAssessment);
    HealthyPreflight(Book([], map[], 0), FillsBetweenTicks);
    OddEntry();
    OddIsProtected();
    TargetIsRoundedToFourteen();
  }
}
