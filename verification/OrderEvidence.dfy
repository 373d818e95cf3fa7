/** How the order audit builds its evidence (app/services/order_audit.py): the queried order is matched with the durable
    trade, its fills are read from the account's trade history, and the economics are computed from them. Statuses other
    than the supported ones are one value; texts that are blank are None. */
module OrderEvidence {
  import opened Trading
  import opened OrderAudit
  import L = ProtectiveLifecycle

  datatype Side = Buy | Sell

  /** One row of the account's trade history. */
  datatype TradePayload = TradePayload(symbol: string, order: int, id: Option<string>, side: Option<Side>, quantity: real, price: real, at: int)

  /** An order as the exchange reports it. */
  datatype OrderPayload = OrderPayload(
    client: Option<int>, exchange: Option<int>, actual: Option<int>, status: Option<Status>, side: Option<Side>,
    requested: Option<real>, executed: Option<real>, average: Option<real>)

  /** What the durable trade expects of the order; a manual close has no exchange id yet. */
  datatype Expected = Expected(
    signal: int, trade: int, role: Role, symbol: string, direction: Direction, client: int, exchange: Option<int>, requested: real)

  function ExpectedSide(direction: Direction, role: Role): Side {
    if (direction == Long) == (role == Entry) then Buy else Sell
  }

  // ---------------------------------------------------------------- the fill reader

  /** A history row as the shared fill collection sees it: it closes the order if it is on the expected side. */
  function RowOfTrade(p: TradePayload, side: Side): L.Payload {
    L.Payload(p.order, p.id, p.side == Some(side), p.quantity, p.price, p.at)
  }

  /** The trade's symbol's rows as the shared fill collection sees them. */
  function RowsFor(payloads: seq<TradePayload>, symbol: string, side: Side): seq<L.Payload> {
    if payloads == [] then []
    else
      var last := payloads[|payloads| - 1];
      RowsFor(payloads[..|payloads| - 1], symbol, side)
      + if last.symbol == symbol then [RowOfTrade(last, side)] else []
  }

  function FillsOf(fills: seq<L.Fill>): (r: seq<Fill>)
    ensures |r| == |fills| && forall i :: 0 <= i < |r| ==> r[i] == Fill(fills[i].id, fills[i].quantity, fills[i].price)
  {
    seq(|fills|, i requires 0 <= i < |fills| => Fill(fills[i].id, fills[i].quantity, fills[i].price))
  }

  function FillsFor(payloads: seq<TradePayload>, symbol: string, order: int, side: Side): Result<seq<Fill>, Code> {
    var collected := L.Collect(RowsFor(payloads, symbol, side), order);
    if collected.Ok? then Ok(FillsOf(L.SortFills(collected.value)))
    else Err(if collected.error == L.FillIdentityInvalid then FillIdentityInvalid else DecimalInvalid)
  }

  /** `_fills_for_order`. */
  method FillsForOrder(payloads: seq<TradePayload>, symbol: string, order: int, side: Side) returns (result: Result<seq<Fill>, Code>)
    ensures result == FillsFor(payloads, symbol, order, side)
  {
    hide L.SortFills, L.Collect, RowsFor;
    assert L.Collect(RowsFor(payloads[..0], symbol, side), order) == Ok([]) by { NothingRead(payloads, symbol, side, order); }
    var fills: seq<L.Fill>, identities: set<string> := [], {};
    for i := 0 to |payloads|
      invariant L.Collect(RowsFor(payloads[..i], symbol, side), order) == Ok(fills) && identities == L.Ids(fills)
    {
      var p := payloads[i];
      RowsStep(payloads, i, symbol, side, order);
      if p.symbol != symbol { continue; }
      CollectStep(RowsFor(payloads[..i], symbol, side), RowOfTrade(p, side), order);
      if p.order != order { continue; }
      if p.id.None? || p.id.value in identities || p.side != Some(side) { return Err(FillIdentityInvalid); }
      if p.quantity <= 0.0 || p.price <= 0.0 { return Err(DecimalInvalid); }
      var fill := L.Fill(p.id.value, p.quantity, p.price, p.at);
      L.IdsGrow(fills, fill);
      fills, identities := fills + [fill], identities + {p.id.value};
    }
    assert payloads[..|payloads|] == payloads;
    return Ok(FillsOf(L.SortFills(fills)));
  }

  lemma NothingRead(payloads: seq<TradePayload>, symbol: string, side: Side, order: int)
    ensures L.Collect(RowsFor(payloads[..0], symbol, side), order) == Ok([])
  {
  }

  lemma RowsStep(payloads: seq<TradePayload>, i: nat, symbol: string, side: Side, order: int)
    requires i < |payloads|
    ensures var part, p := RowsFor(payloads[..i + 1], symbol, side), payloads[i];
      && part == (if p.symbol == symbol then RowsFor(payloads[..i], symbol, side) + [RowOfTrade(p, side)] else RowsFor(payloads[..i], symbol, side))
      && (L.Collect(part, order).Err? ==> L.Collect(RowsFor(payloads, symbol, side), order) == L.Collect(part, order))
  {
    assert payloads[..i + 1][..i] == payloads[..i];
    RowsGrow(payloads, i + 1, symbol, side);
    var all, part := RowsFor(payloads, symbol, side), RowsFor(payloads[..i + 1], symbol, side);
    assert all[..|part|] == part;
    L.DefectsPersist(all, order, |part|);
  }

  lemma CollectStep(rows: seq<L.Payload>, p: L.Payload, order: int)
    requires L.Collect(rows, order).Ok?
    ensures var fills := L.Collect(rows, order).value;
      L.Collect(rows + [p], order) ==
      if p.order != order then Ok(fills)
      else if p.id.None? || p.id.value in L.Ids(fills) || !p.closes then Err(L.FillIdentityInvalid)
      else if p.quantity <= 0.0 || p.price <= 0.0 then Err(L.DecimalInvalid)
      else Ok(fills + [L.FillOf(p)])
  {
    assert (rows + [p])[..|rows|] == rows;
  }

  lemma {:induction false} RowsGrow(payloads: seq<TradePayload>, i: nat, symbol: string, side: Side)
    requires i <= |payloads|
    ensures RowsFor(payloads[..i], symbol, side) <= RowsFor(payloads, symbol, side)
  {
    if i < |payloads| {
      RowsGrow(payloads[..|payloads| - 1], i, symbol, side);
      assert payloads[..|payloads| - 1][..i] == payloads[..i];
    } else {
      assert payloads[..i] == payloads;
    }
  }

  // ---------------------------------------------------------------- the evidence builders

  function Requested(x: Expected, p: OrderPayload): Result<real, Code> {
    if p.requested.None? then Ok(x.requested)
    else if p.requested.value <= 0.0 then Err(DecimalInvalid)
    else if p.requested.value != x.requested then Err(RequestedMismatch)
    else Ok(x.requested)
  }

  /** The order is the one the trade knows by client and exchange id. */
  predicate SameOrder(x: Expected, p: OrderPayload) {
    p.client == Some(x.client) && p.exchange.Some? && (if Protective(x.role) then p.exchange == x.exchange else x.exchange.Some? ==> p.exchange == x.exchange)
  }

  /** `_regular_evidence` and `_algo_evidence`: a regular order is its own actual order, and an algo that never triggered
      has no fills. */
  function EvidenceOf(x: Expected, p: OrderPayload, payloads: seq<TradePayload>, exit: TradeExit): Result<Evidence, Code> {
    var side := ExpectedSide(x.direction, x.role);
    if p.status.None? then Err(StatusMissing)
    else if !SameOrder(x, p) then Err(OrderIdentityInvalid)
    else
      var requested :- Requested(x, p);
      if p.side.Some? && p.side.value != side then Err(SideInvalid)
      else
        var actual := if Protective(x.role) then p.actual else p.exchange;
        var fills :- if actual.None? then Ok([]) else FillsFor(payloads, x.symbol, actual.value, side);
        if (p.executed.Some? && p.executed.value < 0.0) || (p.average.Some? && p.average.value < 0.0) then Err(DecimalInvalid)
        else
          var economics :- ExecutionEconomics(p.executed, if p.average == Some(0.0) then None else p.average, fills);
          var valid :- ValidateEconomics(x.role, requested, economics.0, economics.1, p.status.value, actual, Some(exit));
          Ok(Evidence(x.signal, x.trade, x.role, x.client, p.exchange.value, actual, requested, economics.0, economics.1, p.status.value, fills))
  }

  /** The trade-history rows the evidence must account for. */
  predicate Concerns(p: TradePayload, symbol: string, order: int) { p.symbol == symbol && p.order == order }

  lemma {:induction false} ProperFromCollected(fills: seq<L.Fill>, n: nat)
    requires n <= |fills| && L.Positive(fills) && L.DistinctIds(fills) && forall i :: 0 <= i < |fills| ==> fills[i].price > 0.0
    ensures ProperFills(FillsOf(fills)[..n])
    ensures forall id :: id in Ids(FillsOf(fills)[..n]) <==> exists i :: 0 <= i < n && fills[i].id == id
  {
    if n > 0 {
      ProperFromCollected(fills, n - 1);
      assert FillsOf(fills)[..n][..n - 1] == FillsOf(fills)[..n - 1];
    }
  }

  lemma {:induction false} RowsAreRead(payloads: seq<TradePayload>, symbol: string, side: Side, i: nat)
    requires i < |payloads| && payloads[i].symbol == symbol
    ensures RowOfTrade(payloads[i], side) in RowsFor(payloads, symbol, side)
  {
    if i < |payloads| - 1 { RowsAreRead(payloads[..|payloads| - 1], symbol, side, i); }
  }

  /** A successful reading: proper fills, and every history row of the order is on the expected side and among them. */
  lemma ReadFillsAreProper(payloads: seq<TradePayload>, symbol: string, order: int, side: Side)
    requires FillsFor(payloads, symbol, order, side).Ok?
    ensures var fills := FillsFor(payloads, symbol, order, side).value;
      && ProperFills(fills)
      && forall p :: p in payloads && Concerns(p, symbol, order) ==>
           p.side == Some(side) && p.id.Some? && Fill(p.id.value, p.quantity, p.price) in fills
  {
    hide L.Collect, L.SortFills, RowsFor, ProperFills, L.Positive, L.Sorted;
    var rows := RowsFor(payloads, symbol, side);
    var sorted := L.SortFills(L.Collect(rows, order).value);
    L.CollectedFills(rows, order);
    ProperFromCollected(sorted, |sorted|);
    assert FillsOf(sorted)[..|sorted|] == FillsOf(sorted);
    forall p | p in payloads && Concerns(p, symbol, order)
      ensures p.side == Some(side) && p.id.Some? && Fill(p.id.value, p.quantity, p.price) in FillsOf(sorted)
    {
      var i :| 0 <= i < |payloads| && payloads[i] == p;
      RowsAreRead(payloads, symbol, side, i);
      var j :| 0 <= j < |rows| && rows[j] == RowOfTrade(p, side);
      assert L.Belongs(rows[j], order);
      var k :| 0 <= k < |sorted| && sorted[k] == L.FillOf(rows[j]);
      assert FillsOf(sorted)[k] == Fill(p.id.value, p.quantity, p.price);
    }
  }

  /** What the evidence builders hand over is what the ledger theorems assume, is about the expected order, and accounts for
      every row of the trade history that belongs to the order's actual execution. */
  lemma EvidenceIsVerified(x: Expected, p: OrderPayload, payloads: seq<TradePayload>, exit: TradeExit)
    requires EvidenceOf(x, p, payloads, exit).Ok? && x.requested > 0.0
    ensures var e := EvidenceOf(x, p, payloads, exit).value;
      && Verified(e)
      && e.signal == x.signal && e.trade == x.trade && e.role == x.role && e.client == x.client && e.requested == x.requested
      && (x.exchange.Some? ==> e.exchange == x.exchange.value)
      && (e.actual.None? ==> e.fills == [])
      && (e.actual.Some? ==> forall row :: row in payloads && Concerns(row, x.symbol, e.actual.value) ==>
            row.side == Some(ExpectedSide(x.direction, x.role)) && row.id.Some? && Fill(row.id.value, row.quantity, row.price) in e.fills)
  {
    hide Quantity, Notional, Mean, FillsFor, Concerns;
    var actual := if Protective(x.role) then p.actual else p.exchange;
    if actual.Some? { ReadFillsAreProper(payloads, x.symbol, actual.value, ExpectedSide(x.direction, x.role)); }
  }
}
