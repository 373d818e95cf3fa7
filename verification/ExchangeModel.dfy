/** The exchange as the execution engine sees it: accepted orders by client id, net positions, and one
    fault per call that decides whether the call lands, is answered, or kills the process.

    Stated assumptions: market orders are final when the call returns; FILLED means the whole quantity
    executed; a reduce-only order never grows or flips a position; status and executed quantity in
    answers are truthful (identity and price fields may be missing); protective orders do not trigger
    while a call is in progress. Client ids are NOT assumed unique: the exchange accepts duplicates. */
module ExchangeModel {
  import opened Trading
  import ER = ExchangeRules

  datatype Side = Buy | Sell

  function SideFor(direction: Direction): Side {
    if direction == Long then Buy else Sell
  }

  /** The deterministic ids af-e-, af-s-, af-t-, af-x- followed by the signal prefix. */
  datatype Role = Entry | Stop | Take | Close
  datatype ClientId = ClientId(role: Role, signal: string)

  datatype Status = New | PartiallyFilled | Filled | Canceled | Expired | Rejected

  datatype Order = Order(
    number: nat, symbol: string, id: ClientId, side: Side, quantity: real, trigger: real, executed: real, status: Status, reduceOnly: bool)

  predicate Active(status: Status) {
    status == New || status == PartiallyFilled
  }

  /** What the environment does to one call. */
  datatype Fault = Fault(
    crash: bool, landed: bool, answered: bool,
    fill: real, status: Status,
    identified: bool, numbered: bool, average: Option<real>,
    hedged: bool, rules: Option<ER.Rules>, mark: Option<real>)

  type Env = nat -> Fault

  datatype Payload = Payload(
    clientId: Option<ClientId>, orderId: Option<nat>, status: Status, average: Option<real>, executed: real)

  datatype Reply<T> = Answer(value: T) | NotFound | Failure | Crash

  datatype Book = Book(orders: seq<Order>, net: map<string, real>, tick: nat)

  function Net(book: Book, symbol: string): real {
    if symbol in book.net then book.net[symbol] else 0.0
  }

  /** Every accepted order carrying this client id, oldest first. */
  function OrdersOf(orders: seq<Order>, symbol: string, id: ClientId): seq<Order> {
    if orders == [] then []
    else
      var last := orders[|orders| - 1];
      OrdersOf(orders[..|orders| - 1], symbol, id) + (if last.symbol == symbol && last.id == id then [last] else [])
  }

  function Ticked(book: Book): Book {
    book.(tick := book.tick + 1)
  }

  function PayloadOf(order: Order, fault: Fault): Payload {
    Payload(
      if fault.identified then Some(order.id) else None,
      if fault.numbered then Some(order.number) else None,
      order.status, fault.average, order.executed)
  }

  function QueryOrder(book: Book, env: Env, symbol: string, id: ClientId): (Reply<Payload>, Book) {
    var fault := env(book.tick);
    var found := OrdersOf(book.orders, symbol, id);
    var reply :=
      if fault.crash then Crash
      else if !fault.answered then Failure
      else if found == [] then NotFound
      else Answer(PayloadOf(found[|found| - 1], fault));
    (reply, Ticked(book))
  }

  /** How much of the position an order on `side` can still reduce. */
  function Reducible(net: real, side: Side): real {
    if side == Sell then Max(net, 0.0) else Max(-net, 0.0)
  }

  function MarketOrder(book: Book, fault: Fault, symbol: string, side: Side, quantity: real, id: ClientId, reduceOnly: bool): Order {
    var room := if reduceOnly then Min(quantity, Reducible(Net(book, symbol), side)) else quantity;
    var executed := Max(0.0, Min(fault.fill, room));
    var status := if executed == quantity then Filled else if fault.status == Filled then Expired else fault.status;
    Order(|book.orders|, symbol, id, side, quantity, 0.0, executed, status, reduceOnly)
  }

  function Land(book: Book, order: Order): Book {
    var change := if order.side == Buy then order.executed else -order.executed;
    book.(orders := book.orders + [order], net := book.net[order.symbol := Net(book, order.symbol) + change])
  }

  function PlaceMarketOrder(book: Book, env: Env, symbol: string, side: Side, quantity: real, id: ClientId, reduceOnly: bool):
    (Reply<Payload>, Book)
  {
    var fault := env(book.tick);
    var order := MarketOrder(book, fault, symbol, side, quantity, id, reduceOnly);
    var after := Ticked(if fault.landed then Land(book, order) else book);
    var reply :=
      if fault.crash then Crash
      else if fault.landed && fault.answered then Answer(PayloadOf(order, fault))
      else Failure;
    (reply, after)
  }

  function ProtectiveOrder(book: Book, fault: Fault, symbol: string, side: Side, quantity: real, trigger: real, id: ClientId): Order {
    var status := if fault.status == Filled || fault.status == PartiallyFilled then New else fault.status;
    Order(|book.orders|, symbol, id, side, quantity, trigger, 0.0, status, true)
  }

  function SubmitProtective(book: Book, env: Env, symbol: string, side: Side, quantity: real, trigger: real, id: ClientId):
    (Reply<Payload>, Book)
  {
    var fault := env(book.tick);
    var order := ProtectiveOrder(book, fault, symbol, side, quantity, trigger, id);
    var after := Ticked(if fault.landed then book.(orders := book.orders + [order]) else book);
    var reply :=
      if fault.crash then Crash
      else if fault.landed && fault.answered then Answer(PayloadOf(order, fault))
      else Failure;
    (reply, after)
  }

  function Cancelled(order: Order, symbol: string, id: ClientId): Order {
    if order.symbol == symbol && order.id == id && Active(order.status) then order.(status := Canceled) else order
  }

  function CancelOrder(book: Book, env: Env, symbol: string, id: ClientId): (Reply<()>, Book) {
    var fault := env(book.tick);
    var orders := if fault.landed then seq(|book.orders|, i requires 0 <= i < |book.orders| => Cancelled(book.orders[i], symbol, id)) else book.orders;
    (if fault.crash then Crash else if fault.answered then Answer(()) else Failure, Ticked(book.(orders := orders)))
  }

  /** A read that changes nothing: position mode, exchange rules, mark price. */
  function Read(book: Book, env: Env): (Reply<Fault>, Book) {
    var fault := env(book.tick);
    (if fault.crash then Crash else if fault.answered then Answer(fault) else Failure, Ticked(book))
  }

  // ---------------------------------------------------------------- facts about the book

  lemma OrdersOfAppend(orders: seq<Order>, order: Order, symbol: string, id: ClientId)
    ensures OrdersOf(orders + [order], symbol, id) ==
            OrdersOf(orders, symbol, id) + (if order.symbol == symbol && order.id == id then [order] else [])
  {
    assert (orders + [order])[..|orders|] == orders;
  }

  /** Order identities, ignoring fills and statuses. */
  ghost predicate SameIdentities(before: seq<Order>, after: seq<Order>) {
    |before| == |after| && forall i :: 0 <= i < |before| ==> before[i].symbol == after[i].symbol && before[i].id == after[i].id
  }

  lemma {:induction false} SameIdentitiesSameCount(before: seq<Order>, after: seq<Order>, symbol: string, id: ClientId)
    requires SameIdentities(before, after)
    ensures |OrdersOf(before, symbol, id)| == |OrdersOf(after, symbol, id)|
    decreases |before|
  {
    if before != [] {
      SameIdentitiesSameCount(before[..|before| - 1], after[..|after| - 1], symbol, id);
    }
  }
}
