/** Durable order audit (app/services/order_audit.py with the production rules of order_audit_runtime.py): verified
    exchange evidence is written onto one row per order and one row per fill, under progression checks. The rows
    modelled are those of one symbol; fill rows are keyed by symbol and exchange trade id. */
module OrderAudit {
  import opened Trading

  datatype Role = Entry | StopLossOrder | TakeProfitOrder | ManualClose

  datatype Status = New | PartiallyFilled | Filled | Finished | Canceled | Cancelled | Expired | Rejected | Unsupported

  datatype Fill = Fill(id: string, quantity: real, price: real)

  datatype Evidence = Evidence(
    signal: int, trade: int, role: Role, client: int, exchange: int, actual: Option<int>,
    requested: real, executed: real, average: Option<real>, status: Status, fills: seq<Fill>)

  /** The canonical payload of a row. */
  datatype Audit = Audit(
    role: Role, client: int, exchange: int, actual: Option<int>, requested: real, executed: real,
    average: Option<real>, status: Status, tradeIds: set<string>, verifiedAt: int)

  /** An order row: the queried columns and the canonical payload, which a row written before this service lacks. */
  datatype Row = Row(
    signal: Option<int>, trade: Option<int>, client: int, exchange: Option<int>,
    status: Status, quantity: Option<real>, average: Option<real>, audit: Option<Audit>, createdAt: int, updatedAt: int)

  datatype FillRow = FillRow(order: int, quantity: real, price: real)

  datatype Book = Book(orders: map<int, Row>, fills: map<string, FillRow>)

  datatype Code =
    | ExecutedMismatch | AverageMismatch | AverageWithoutFill | StatusInvalid | Overfill | AverageMissing | ActualMissing
    | NewHasFill | PartialInvalid | TerminalQuantityInvalid | RejectedHasFill
    | IdentityConflict | ImmutableChanged | ActualChanged | ExecutedRegression | AverageConflict | StatusRegression | FillRegression
    | FillIdentityConflict | LegacyRow | RowParityInvalid
    | StatusMissing | OrderIdentityInvalid | RequestedMismatch | SideInvalid | FillIdentityInvalid | DecimalInvalid

  // ---------------------------------------------------------------- economics of a fill list

  function Quantity(fills: seq<Fill>): real {
    if fills == [] then 0.0 else Quantity(fills[..|fills| - 1]) + fills[|fills| - 1].quantity
  }

  function Notional(fills: seq<Fill>): real {
    if fills == [] then 0.0 else Notional(fills[..|fills| - 1]) + fills[|fills| - 1].quantity * fills[|fills| - 1].price
  }

  function Ids(fills: seq<Fill>): set<string> {
    if fills == [] then {} else Ids(fills[..|fills| - 1]) + {fills[|fills| - 1].id}
  }

  /** What the fill reader guarantees of its result: positive quantities and prices, no repeated id. */
  predicate ProperFills(fills: seq<Fill>) {
    fills == [] || (
      var last, rest := fills[|fills| - 1], fills[..|fills| - 1];
      ProperFills(rest) && last.quantity > 0.0 && last.price > 0.0 && last.id !in Ids(rest))
  }

  function Mean(notional: real, quantity: real): real
    requires quantity > 0.0
  {
    notional / quantity
  }

  function MeanOf(notional: real, quantity: real): Option<real> {
    if quantity > 0.0 then Some(Mean(notional, quantity)) else None
  }

  /** Executed quantity and weighted average of the fills, cross-checked against the order's own figures. */
  function ExecutionEconomics(statedExecuted: Option<real>, statedAverage: Option<real>, fills: seq<Fill>): Result<(real, Option<real>), Code> {
    var quantity := Quantity(fills);
    var average := MeanOf(Notional(fills), quantity);
    if statedExecuted.Some? && statedExecuted.value != quantity then Err(ExecutedMismatch)
    else if statedAverage.Some? && average.Some? && statedAverage.value != average.value then Err(AverageMismatch)
    else if quantity == 0.0 && statedAverage.Some? && statedAverage.value != 0.0 then Err(AverageWithoutFill)
    else Ok((quantity, average))
  }

  /** What the tracked trade says of its protective exit: the side that filled, and how much. */
  datatype TradeExit = TradeExit(side: Option<Role>, quantity: real)

  predicate Protective(role: Role) { role == StopLossOrder || role == TakeProfitOrder }

  function OppositeSide(role: Role): Role { if role == StopLossOrder then TakeProfitOrder else StopLossOrder }

  function ValidateEconomics(
    role: Role, requested: real, executed: real, average: Option<real>, status: Status, actual: Option<int>, trade: Option<TradeExit>): Result<bool, Code>
  {
    if status == Unsupported then Err(StatusInvalid)
    else if executed > requested then Err(Overfill)
    else if executed > 0.0 && average.None? then Err(AverageMissing)
    else if executed == 0.0 && average.Some? then Err(AverageWithoutFill)
    else if Protective(role) && executed > 0.0 && actual.None? then Err(ActualMissing)
    else if status == New && executed != 0.0 then Err(NewHasFill)
    else if status == PartiallyFilled && !(0.0 < executed < requested) then Err(PartialInvalid)
    else if status == Filled && executed != requested then Err(TerminalQuantityInvalid)
    else if status == Finished && Protective(role) && trade.Some? && executed == 0.0 && trade.value.side != Some(OppositeSide(role)) then Err(TerminalQuantityInvalid)
    else if status == Finished && Protective(role) && trade.Some? && executed != 0.0 && (trade.value.side != Some(role) || executed != trade.value.quantity) then Err(TerminalQuantityInvalid)
    else if status == Finished && !Protective(role) && executed != requested then Err(TerminalQuantityInvalid)
    else if status == Rejected && executed != 0.0 then Err(RejectedHasFill)
    else Ok(true)
  }

  /** Evidence as the two evidence builders hand it over. */
  predicate Verified(e: Evidence) {
    && ProperFills(e.fills) && e.requested > 0.0
    && e.executed == Quantity(e.fills) && e.average == MeanOf(Notional(e.fills), e.executed)
    && ValidateEconomics(e.role, e.requested, e.executed, e.average, e.status, e.actual, None) == Ok(true)
    && (!Protective(e.role) ==> e.actual == Some(e.exchange))
  }

  // ---------------------------------------------------------------- progression

  function Normal(status: Status): Status { if status == Cancelled then Canceled else status }

  predicate Terminal(status: Status) {
    status == Filled || status == Finished || status == Canceled || status == Cancelled || status == Expired || status == Rejected
  }

  predicate TransitionAllowed(current: Status, incoming: Status) {
    var c, i := Normal(current), Normal(incoming);
    if c == i then true
    else if Terminal(c) then false
    else if c == New then i != Unsupported
    else if c == PartiallyFilled then Terminal(i)
    else false
  }

  function CheckIdentity(row: Row, e: Evidence): Result<bool, Code> {
    if row.client != e.client || (row.signal.Some? && row.signal.value != e.signal) || (row.trade.Some? && row.trade.value != e.trade)
       || (row.exchange.Some? && row.exchange.value != e.exchange)
    then Err(IdentityConflict)
    else Ok(true)
  }

  function CheckProgression(row: Row, e: Evidence): Result<bool, Code> {
    if row.audit.None? then Ok(true)
    else
      var a := row.audit.value;
      if a.role != e.role || a.client != e.client || a.exchange != e.exchange || a.requested != e.requested then Err(ImmutableChanged)
      else if a.actual.Some? && a.actual != e.actual then Err(ActualChanged)
      else if e.executed < a.executed then Err(ExecutedRegression)
      else if e.executed == a.executed && a.average != e.average then Err(AverageConflict)
      else if !TransitionAllowed(a.status, e.status) then Err(StatusRegression)
      else if !(a.tradeIds <= Ids(e.fills)) then Err(FillRegression)
      else Ok(true)
  }

  // ---------------------------------------------------------------- the transaction

  predicate SameFill(row: FillRow, order: int, fill: Fill) {
    row.order == order && row.quantity == fill.quantity && row.price == fill.price
  }

  function PersistFills(fills: map<string, FillRow>, order: int, arrived: seq<Fill>): Result<map<string, FillRow>, Code> {
    if arrived == [] then Ok(fills)
    else
      var before :- PersistFills(fills, order, arrived[..|arrived| - 1]);
      var fill := arrived[|arrived| - 1];
      if fill.id in before then (if SameFill(before[fill.id], order, fill) then Ok(before) else Err(FillIdentityConflict))
      else Ok(before[fill.id := FillRow(order, fill.quantity, fill.price)])
  }

  function AuditOf(e: Evidence, now: int): Audit {
    Audit(e.role, e.client, e.exchange, e.actual, e.requested, e.executed, e.average, e.status, Ids(e.fills), now)
  }

  function RowOf(e: Evidence, createdAt: int, now: int): Row {
    Row(Some(e.signal), Some(e.trade), e.client, Some(e.exchange), e.status, Some(e.executed), e.average, Some(AuditOf(e, now)), createdAt, now)
  }

  function Persisted(book: Book, order: int, e: Evidence, now: int): Result<Book, Code> {
    var known :- if order in book.orders then Checked(book.orders[order], e) else Ok(true);
    var fills :- PersistFills(book.fills, order, e.fills);
    var createdAt := if order in book.orders then book.orders[order].createdAt else now;
    Ok(Book(book.orders[order := RowOf(e, createdAt, now)], fills))
  }

  function Checked(row: Row, e: Evidence): Result<bool, Code> {
    var identity :- CheckIdentity(row, e);
    CheckProgression(row, e)
  }

  /** A failed audit rolls back. */
  function Audited(book: Book, order: int, e: Evidence, now: int): Book {
    var r := Persisted(book, order, e, now);
    if r.Ok? then r.value else book
  }

  /** The columns say what the canonical payload says. */
  predicate Parity(row: Row, a: Audit) {
    row.client == a.client && row.exchange == Some(a.exchange) && row.status == a.status && row.quantity == Some(a.executed) && row.average == a.average
  }

  /** `_record`: the canonical row read back, its columns compared with the payload and its economics checked again. */
  function Record(row: Row): Result<Audit, Code> {
    if row.audit.None? then Err(LegacyRow)
    else
      var a := row.audit.value;
      if !Parity(row, a) then Err(RowParityInvalid)
      else
        var valid :- ValidateEconomics(a.role, a.requested, a.executed, a.average, a.status, a.actual, None);
        Ok(a)
  }

  class OrderAuditService {
    var orders: map<int, Row>
    var fills: map<string, FillRow>

    function Contents(): Book
      reads this
    {
      Book(orders, fills)
    }

    /** `_persist` with its loop over fills; the fields change only on success. */
    method Persist(order: int, e: Evidence, now: int) returns (result: Result<bool, Code>)
      modifies this
      ensures Contents() == Audited(old(Contents()), order, e, now)
      ensures result.Ok? <==> Persisted(old(Contents()), order, e, now).Ok?
      ensures result.Err? ==> result.error == Persisted(old(Contents()), order, e, now).error
    {
      hide CheckIdentity, CheckProgression, Ids;
      var createdAt := now;
      if order in orders {
        var checked := Checked(orders[order], e);
        if checked.Err? { return Err(checked.error); }
        createdAt := orders[order].createdAt;
      }
      var stored := fills;
      for i := 0 to |e.fills|
        invariant orders == old(orders) && fills == old(fills)
        invariant PersistFills(fills, order, e.fills[..i]) == Ok(stored)
      {
        var fill := e.fills[i];
        assert e.fills[..i + 1][..i] == e.fills[..i];
        if fill.id in stored {
          if !SameFill(stored[fill.id], order, fill) {
            ConflictPersists(fills, order, e.fills, i + 1);
            return Err(FillIdentityConflict);
          }
        } else {
          stored := stored[fill.id := FillRow(order, fill.quantity, fill.price)];
        }
      }
      assert e.fills[..|e.fills|] == e.fills;
      fills := stored;
      orders := orders[order := RowOf(e, createdAt, now)];
      return Ok(true);
    }
  }

  lemma {:induction false} ConflictPersists(fills: map<string, FillRow>, order: int, arrived: seq<Fill>, i: nat)
    requires i <= |arrived| && PersistFills(fills, order, arrived[..i]).Err?
    ensures PersistFills(fills, order, arrived) == PersistFills(fills, order, arrived[..i])
  {
    if i < |arrived| {
      assert arrived[..|arrived| - 1][..i] == arrived[..i];
      ConflictPersists(fills, order, arrived[..|arrived| - 1], i);
    } else {
      assert arrived[..i] == arrived;
    }
  }
}
