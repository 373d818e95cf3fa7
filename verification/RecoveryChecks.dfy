/** The two checks that gate trading after a restart: the startup reconciliation (app/services/recovery.py) and the restart
    report (app/services/restart_recovery.py). Each compares the durable open trades with the exchange's open protective
    orders and positions in its own loops. A missing or blank field is None. */
module RecoveryChecks {
  import opened Trading
  import R = Reconcilers

  /** A durable open trade with its three client and exchange order ids. */
  datatype TrackedTrade = TrackedTrade(held: R.Trade, entry: (string, string), stop: (string, string), take: (string, string))

  datatype OrderPayload = OrderPayload(client: Option<string>, order: Option<string>, symbol: Option<string>, status: string)

  datatype PositionPayload = PositionPayload(symbol: Option<string>, amount: Option<real>)

  datatype Code =
    | DuplicateDurablePosition | DuplicateDurableOrder | OrderPayloadInvalid | OrderStatusUnsafe | DuplicateOpenOrder
    | PositionPayloadInvalid | DuplicateOpenPosition | OrderSetMismatch | OrderIdentityMismatch | PositionSetMismatch
    | UnexpectedRegularOrder | EntryMismatch | ProtectionMismatch

  // ---------------------------------------------------------------- open orders by client id

  /** A client id with symbol and exchange order id. */
  type Pair = (string, (string, string))

  function PairMap(pairs: seq<Pair>): map<string, (string, string)> {
    if pairs == [] then map[]
    else
      var rest, last := PairMap(pairs[..|pairs| - 1]), pairs[|pairs| - 1];
      if last.0 in rest then rest else rest[last.0 := last.1]
  }

  ghost predicate Unrepeated(pairs: seq<Pair>) {
    forall i, j :: 0 <= i < j < |pairs| ==> pairs[i].0 != pairs[j].0
  }

  /** The protective orders the trades own. */
  function Protections(trades: seq<TrackedTrade>): seq<Pair> {
    if trades == [] then []
    else
      var last := trades[|trades| - 1];
      Protections(trades[..|trades| - 1]) + [(last.stop.0, (last.held.symbol, last.stop.1)), (last.take.0, (last.held.symbol, last.take.1))]
  }

  predicate Readable(o: OrderPayload) { o.client.Some? && o.order.Some? && o.symbol.Some? }

  function PairOf(o: OrderPayload): Pair
    requires Readable(o)
  {
    (o.client.value, (o.symbol.value, o.order.value))
  }

  /** The orders the exchange shows. */
  function OpenPairs(orders: seq<OrderPayload>): seq<Pair> {
    if orders == [] then []
    else
      var last := orders[|orders| - 1];
      OpenPairs(orders[..|orders| - 1]) + if Readable(last) then [PairOf(last)] else []
  }

  lemma {:induction false} PairMapHas(pairs: seq<Pair>, key: string)
    ensures key in PairMap(pairs) <==> exists i :: 0 <= i < |pairs| && pairs[i].0 == key
  {
    if pairs != [] {
      var init := pairs[..|pairs| - 1];
      PairMapHas(init, key);
      if i :| 0 <= i < |pairs| && pairs[i].0 == key {
        if i < |init| { assert init[i].0 == key; }
      }
    }
  }

  lemma OneMorePair(pairs: seq<Pair>, p: Pair)
    requires Unrepeated(pairs)
    ensures Unrepeated(pairs + [p]) <==> p.0 !in PairMap(pairs)
    ensures p.0 !in PairMap(pairs) ==> PairMap(pairs + [p]) == PairMap(pairs)[p.0 := p.1]
  {
    PairMapHas(pairs, p.0);
    var all := pairs + [p];
    assert all[..|all| - 1] == pairs;
    if p.0 in PairMap(pairs) {
      var i :| 0 <= i < |pairs| && pairs[i].0 == p.0;
      assert all[i].0 == all[|pairs|].0;
    }
  }

  lemma PrefixUnrepeated(part: seq<Pair>, all: seq<Pair>)
    requires part <= all && Unrepeated(all)
    ensures Unrepeated(part)
  {
    forall i, j | 0 <= i < j < |part| ensures part[i].0 != part[j].0 {
      assert part[i] == all[i] && part[j] == all[j];
    }
  }

  lemma {:induction false} ProtectionsGrow(trades: seq<TrackedTrade>, n: nat)
    requires n <= |trades|
    ensures Protections(trades[..n]) <= Protections(trades)
  {
    if n < |trades| {
      ProtectionsGrow(trades[..|trades| - 1], n);
      assert trades[..|trades| - 1][..n] == trades[..n];
    } else {
      assert trades[..n] == trades;
    }
  }

  lemma {:induction false} OpenPairsGrow(orders: seq<OrderPayload>, n: nat)
    requires n <= |orders|
    ensures OpenPairs(orders[..n]) <= OpenPairs(orders)
  {
    if n < |orders| {
      OpenPairsGrow(orders[..|orders| - 1], n);
      assert orders[..|orders| - 1][..n] == orders[..n];
    } else {
      assert orders[..n] == orders;
    }
  }

  // ---------------------------------------------------------------- the references

  function Helds(trades: seq<TrackedTrade>): (r: seq<R.Trade>)
    ensures |r| == |trades| && forall i :: 0 <= i < |r| ==> r[i] == trades[i].held
  {
    seq(|trades|, i requires 0 <= i < |trades| => trades[i].held)
  }

  predicate PositionsReadable(positions: seq<PositionPayload>) {
    forall i :: 0 <= i < |positions| ==> positions[i].symbol.Some? && positions[i].amount.Some?
  }

  function PositionsOf(positions: seq<PositionPayload>): (r: seq<R.Position>)
    requires PositionsReadable(positions)
    ensures |r| == |positions| && forall i :: 0 <= i < |r| ==> r[i] == R.Position(positions[i].symbol.value, positions[i].amount.value, 0.0)
  {
    seq(|positions|, i requires 0 <= i < |positions| => R.Position(positions[i].symbol.value, positions[i].amount.value, 0.0))
  }

  predicate OrdersReadable(orders: seq<OrderPayload>, statuses: set<string>) {
    forall i :: 0 <= i < |orders| ==> Readable(orders[i]) && orders[i].status in statuses
  }

  /** The open orders are exactly the protective orders of the trades, each once. */
  ghost predicate OrdersAgree(trades: seq<TrackedTrade>, orders: seq<OrderPayload>, statuses: set<string>) {
    && OrdersReadable(orders, statuses)
    && Unrepeated(Protections(trades)) && Unrepeated(OpenPairs(orders))
    && PairMap(OpenPairs(orders)) == PairMap(Protections(trades))
  }

  ghost predicate PositionsAgree(trades: seq<TrackedTrade>, positions: seq<PositionPayload>) {
    PositionsReadable(positions) && R.Agree(Helds(trades), PositionsOf(positions))
  }

  // ---------------------------------------------------------------- one more entry

  lemma OneMoreTracked(trades: seq<TrackedTrade>, i: nat)
    requires i < |trades| && Unrepeated(Protections(trades[..i]))
    ensures var t, before := trades[i], PairMap(Protections(trades[..i]));
      var mid := before[t.stop.0 := (t.held.symbol, t.stop.1)];
      && (t.stop.0 in before ==> !Unrepeated(Protections(trades)))
      && (t.stop.0 !in before && t.take.0 in mid ==> !Unrepeated(Protections(trades)))
      && (t.stop.0 !in before && t.take.0 !in mid ==>
            && Unrepeated(Protections(trades[..i + 1]))
            && PairMap(Protections(trades[..i + 1])) == mid[t.take.0 := (t.held.symbol, t.take.1)])
  {
    hide PairMap, Unrepeated, Protections;
    var t, pairs := trades[i], Protections(trades[..i]);
    var stop, take := (t.stop.0, (t.held.symbol, t.stop.1)), (t.take.0, (t.held.symbol, t.take.1));
    ProtectionsStep(trades, i, stop, take);
    ProtectionsGrow(trades, i + 1);
    OneMorePair(pairs, stop);
    if Unrepeated(Protections(trades)) {
      PrefixUnrepeated(pairs + [stop] + [take], Protections(trades));
      PrefixUnrepeated(pairs + [stop], pairs + [stop] + [take]);
    }
    if stop.0 !in PairMap(pairs) { OneMorePair(pairs + [stop], take); }
  }

  lemma ProtectionsStep(trades: seq<TrackedTrade>, i: nat, stop: Pair, take: Pair)
    requires i < |trades|
    requires stop == (trades[i].stop.0, (trades[i].held.symbol, trades[i].stop.1)) && take == (trades[i].take.0, (trades[i].held.symbol, trades[i].take.1))
    ensures Protections(trades[..i + 1]) == Protections(trades[..i]) + [stop] + [take]
  {
    assert trades[..i + 1][..i] == trades[..i];
    assert Protections(trades[..i]) + [stop, take] == Protections(trades[..i]) + [stop] + [take];
  }

  lemma OneMoreOrder(orders: seq<OrderPayload>, i: nat)
    requires i < |orders| && Unrepeated(OpenPairs(orders[..i])) && Readable(orders[i])
    ensures var p, before := PairOf(orders[i]), PairMap(OpenPairs(orders[..i]));
      && (p.0 in before ==> !Unrepeated(OpenPairs(orders)))
      && (p.0 !in before ==> Unrepeated(OpenPairs(orders[..i + 1])) && PairMap(OpenPairs(orders[..i + 1])) == before[p.0 := p.1])
  {
    hide PairMap, Unrepeated;
    var p, pairs := PairOf(orders[i]), OpenPairs(orders[..i]);
    assert orders[..i + 1][..i] == orders[..i];
    assert OpenPairs(orders[..i + 1]) == pairs + [p];
    OpenPairsGrow(orders, i + 1);
    OneMorePair(pairs, p);
    if Unrepeated(OpenPairs(orders)) { PrefixUnrepeated(pairs + [p], OpenPairs(orders)); }
  }

  lemma OneMoreOpenPosition(positions: seq<PositionPayload>, i: nat)
    requires i < |positions| && PositionsReadable(positions[..i + 1])
    requires PositionsReadable(positions[..i]) && R.NoRepeatedPosition(PositionsOf(positions[..i]))
    ensures var p, before := positions[i], R.PositionMap(PositionsOf(positions[..i]));
      && p.symbol.Some? && p.amount.Some?
      && (p.amount.value == 0.0 ==>
            R.NoRepeatedPosition(PositionsOf(positions[..i + 1])) && R.PositionMap(PositionsOf(positions[..i + 1])) == before)
      && (p.amount.value != 0.0 && p.symbol.value !in before ==>
            && R.NoRepeatedPosition(PositionsOf(positions[..i + 1]))
            && R.PositionMap(PositionsOf(positions[..i + 1])) == before[p.symbol.value := R.Held(p.amount.value)])
      && (p.amount.value != 0.0 && p.symbol.value in before && PositionsReadable(positions) ==> !R.NoRepeatedPosition(PositionsOf(positions)))
  {
    hide R.RepeatedPosition, R.NoRepeatedPosition, R.Held;
    assert positions[..i + 1][i] == positions[i];
    var shown := PositionsOf(positions[..i + 1]);
    assert shown[..i] == PositionsOf(positions[..i]) && shown[..i + 1] == shown;
    R.OneMorePosition(shown, i);
    if PositionsReadable(positions) {
      assert PositionsOf(positions)[..i + 1] == shown && PositionsOf(positions)[..i] == shown[..i];
      R.OneMorePosition(PositionsOf(positions), i);
    }
  }

  // ---------------------------------------------------------------- restart report

  /** The two dictionaries of what must be open. */
  method ExpectedState(trades: seq<TrackedTrade>)
    returns (error: Option<Code>, orders: map<string, (string, string)>, positions: map<string, R.Holding>)
    ensures error.None? <==> Unrepeated(Protections(trades)) && R.NoRepeatedTrade(Helds(trades))
    ensures error.None? ==> orders == PairMap(Protections(trades)) && positions == R.TradeMap(Helds(trades))
  {
    hide Unrepeated, PairMap, Protections, R.NoRepeatedTrade;
    error, orders, positions := None, map[], map[];
    NothingExpected(trades);
    for i := 0 to |trades|
      invariant orders == PairMap(Protections(trades[..i])) && Unrepeated(Protections(trades[..i]))
      invariant positions == R.TradeMap(Helds(trades)[..i]) && R.NoRepeatedTrade(Helds(trades)[..i])
    {
      var t := trades[i];
      OneMoreTracked(trades, i);
      R.OneMoreTrade(Helds(trades), i);
      assert Helds(trades)[..i + 1][..i] == Helds(trades)[..i];
      if t.held.symbol in positions { return Some(DuplicateDurablePosition), orders, positions; }
      positions := positions[t.held.symbol := R.HoldingOf(t.held)];
      if t.stop.0 in orders { return Some(DuplicateDurableOrder), orders, positions; }
      orders := orders[t.stop.0 := (t.held.symbol, t.stop.1)];
      if t.take.0 in orders { return Some(DuplicateDurableOrder), orders, positions; }
      orders := orders[t.take.0 := (t.held.symbol, t.take.1)];
    }
    assert trades[..|trades|] == trades && Helds(trades)[..|trades|] == Helds(trades);
  }

  method OpenOrders(orders: seq<OrderPayload>) returns (result: Result<map<string, (string, string)>, Code>)
    ensures result.Ok? <==> OrdersReadable(orders, {"NEW"}) && Unrepeated(OpenPairs(orders))
    ensures result.Ok? ==> result.value == PairMap(OpenPairs(orders))
  {
    hide Unrepeated, PairMap, OpenPairs;
    var found: map<string, (string, string)> := map[];
    NothingOpen(orders);
    for i := 0 to |orders|
      invariant OrdersReadable(orders[..i], {"NEW"}) && Unrepeated(OpenPairs(orders[..i]))
      invariant found == PairMap(OpenPairs(orders[..i]))
    {
      var o := orders[i];
      if !Readable(o) { return Err(OrderPayloadInvalid); }
      if o.status != "NEW" { return Err(OrderStatusUnsafe); }
      OneMoreOrder(orders, i);
      if o.client.value in found { return Err(DuplicateOpenOrder); }
      found := found[o.client.value := (o.symbol.value, o.order.value)];
      assert OrdersReadable(orders[..i + 1], {"NEW"}) by { ReadableGrows(orders, i, {"NEW"}); }
    }
    assert orders[..|orders|] == orders;
    return Ok(found);
  }

  method OpenPositions(positions: seq<PositionPayload>) returns (result: Result<map<string, R.Holding>, Code>)
    ensures result.Ok? <==> PositionsReadable(positions) && R.NoRepeatedPosition(PositionsOf(positions))
    ensures result.Ok? ==> result.value == R.PositionMap(PositionsOf(positions))
  {
    hide R.NoRepeatedPosition, R.RepeatedPosition, R.PositionMap, R.Held;
    var found: map<string, R.Holding> := map[];
    NothingHeld(positions);
    for i := 0 to |positions|
      invariant PositionsReadable(positions[..i]) && R.NoRepeatedPosition(PositionsOf(positions[..i]))
      invariant found == R.PositionMap(PositionsOf(positions[..i]))
    {
      var p := positions[i];
      if p.symbol.None? || p.amount.None? { return Err(PositionPayloadInvalid); }
      PositionsReadableGrows(positions, i);
      OneMoreOpenPosition(positions, i);
      if p.amount.value == 0.0 { continue; }
      if p.symbol.value in found { return Err(DuplicateOpenPosition); }
      found := found[p.symbol.value := R.Held(p.amount.value)];
    }
    assert positions[..|positions|] == positions;
    return Ok(found);
  }

  /** The report: recovered, or the code it is blocked with. */
  method RestartCheck(trades: seq<TrackedTrade>, orders: seq<OrderPayload>, positions: seq<PositionPayload>) returns (error: Option<Code>)
    ensures error.None? <==> OrdersAgree(trades, orders, {"NEW"}) && PositionsAgree(trades, positions)
  {
    hide PairMap, Unrepeated, R.TradeMap, R.PositionMap, R.NoRepeatedTrade, R.NoRepeatedPosition;
    var expectedOrders, expectedPositions;
    error, expectedOrders, expectedPositions := ExpectedState(trades);
    if error.Some? { return; }
    var actualOrders := OpenOrders(orders);
    if actualOrders.Err? { return Some(actualOrders.error); }
    var actualPositions := OpenPositions(positions);
    if actualPositions.Err? { return Some(actualPositions.error); }
    if actualOrders.value != expectedOrders { return Some(OrderSetMismatch); }
    if actualPositions.value != expectedPositions { return Some(PositionSetMismatch); }
  }

  lemma NothingHeld(positions: seq<PositionPayload>)
    ensures PositionsReadable(positions[..0]) && R.NoRepeatedPosition(PositionsOf(positions[..0])) && R.PositionMap(PositionsOf(positions[..0])) == map[]
  {
    R.EmptyHasNoRepeats();
    assert positions[..0] == [] && PositionsOf(positions[..0]) == [];
  }

  lemma PositionsReadableGrows(positions: seq<PositionPayload>, i: nat)
    requires i < |positions| && PositionsReadable(positions[..i]) && positions[i].symbol.Some? && positions[i].amount.Some?
    ensures PositionsReadable(positions[..i + 1])
  {
    assert positions[..i + 1] == positions[..i] + [positions[i]];
  }

  lemma ReadableGrows(orders: seq<OrderPayload>, i: nat, statuses: set<string>)
    requires i < |orders| && OrdersReadable(orders[..i], statuses) && Readable(orders[i]) && orders[i].status in statuses
    ensures OrdersReadable(orders[..i + 1], statuses)
  {
    assert orders[..i + 1] == orders[..i] + [orders[i]];
  }

  lemma NothingExpected(trades: seq<TrackedTrade>)
    ensures PairMap(Protections(trades[..0])) == map[] && Unrepeated(Protections(trades[..0]))
    ensures R.TradeMap(Helds(trades)[..0]) == map[] && R.NoRepeatedTrade(Helds(trades)[..0])
  {
    R.EmptyHasNoRepeats();
    assert trades[..0] == [] && Helds(trades)[..0] == [];
  }

  lemma NothingOpen(orders: seq<OrderPayload>)
    ensures PairMap(OpenPairs(orders[..0])) == map[] && Unrepeated(OpenPairs(orders[..0]))
  {
    assert orders[..0] == [];
  }

  // ---------------------------------------------------------------- startup check

  /** What one order query answers; a query the exchange does not answer raises. */
  datatype Report = Report(client: string, order: string, status: string, executed: Option<real>) | Unanswered

  datatype Query = Entry(symbol: string, client: string) | Protective(symbol: string, client: string)

  predicate EntryMatches(r: Report, t: TrackedTrade) {
    r.Report? && r.client == t.entry.0 && r.order == t.entry.1 && r.status == "FILLED" && r.executed == Some(t.held.executed)
  }

  predicate GuardMatches(r: Report, guard: (string, string)) {
    r.Report? && r.client == guard.0 && r.order == guard.1 && r.status in {"NEW", "PARTIALLY_FILLED"}
  }

  /** The exchange confirms the trade: its entry under both ids FILLED for the tracked quantity, and each guard under both ids
      still NEW or PARTIALLY_FILLED. */
  ghost predicate Confirmed(t: TrackedTrade, ask: Query -> Report) {
    var entry, stop, take := ask(Entry(t.held.symbol, t.entry.0)), ask(Protective(t.held.symbol, t.stop.0)), ask(Protective(t.held.symbol, t.take.0));
    && entry.Report? && entry.client == t.entry.0 && entry.order == t.entry.1 && entry.status == "FILLED" && entry.executed == Some(t.held.executed)
    && stop.Report? && stop.client == t.stop.0 && stop.order == t.stop.1 && (stop.status == "NEW" || stop.status == "PARTIALLY_FILLED")
    && take.Report? && take.client == t.take.0 && take.order == t.take.1 && (take.status == "NEW" || take.status == "PARTIALLY_FILLED")
  }

  ghost predicate StartupAgrees(trades: seq<TrackedTrade>, regular: seq<OrderPayload>, orders: seq<OrderPayload>, positions: seq<PositionPayload>, ask: Query -> Report) {
    && regular == [] && OrdersAgree(trades, orders, {"NEW", "PARTIALLY_FILLED"}) && PositionsAgree(trades, positions)
    && (forall i :: 0 <= i < |trades| ==> Confirmed(trades[i], ask))
  }

  method LocalState(trades: seq<TrackedTrade>) returns (error: Option<Code>, local: map<string, R.Holding>, orders: map<string, (string, string)>)
    ensures error.None? <==> Unrepeated(Protections(trades)) && R.NoRepeatedTrade(Helds(trades))
    ensures error.None? ==> orders == PairMap(Protections(trades)) && local == R.TradeMap(Helds(trades))
  {
    hide Unrepeated, PairMap, Protections, R.NoRepeatedTrade;
    error, local, orders := None, map[], map[];
    NothingExpected(trades);
    var i := 0;
    while i < |trades|
      invariant 0 <= i <= |trades|
      invariant local == R.TradeMap(Helds(trades)[..i]) && R.NoRepeatedTrade(Helds(trades)[..i])
      invariant orders == PairMap(Protections(trades[..i])) && Unrepeated(Protections(trades[..i]))
    {
      var t := trades[i];
      R.OneMoreTrade(Helds(trades), i);
      OneMoreTracked(trades, i);
      assert Helds(trades)[..i + 1][..i] == Helds(trades)[..i];
      if t.held.symbol in local { return Some(DuplicateDurablePosition), local, orders; }
      if t.stop.0 in orders { return Some(DuplicateDurableOrder), local, orders; }
      var guarded := orders[t.stop.0 := (t.held.symbol, t.stop.1)];
      if t.take.0 in guarded { return Some(DuplicateDurableOrder), local, orders; }
      local, orders := local[t.held.symbol := R.HoldingOf(t.held)], guarded[t.take.0 := (t.held.symbol, t.take.1)];
      i := i + 1;
    }
    assert trades[..|trades|] == trades && Helds(trades)[..|trades|] == Helds(trades);
  }

  method OpenGuards(orders: seq<OrderPayload>) returns (error: Option<Code>, found: map<string, (string, string)>)
    ensures error.None? <==> OrdersReadable(orders, {"NEW", "PARTIALLY_FILLED"}) && Unrepeated(OpenPairs(orders))
    ensures error.None? ==> found == PairMap(OpenPairs(orders))
  {
    hide Unrepeated, PairMap, OpenPairs;
    error, found := None, map[];
    NothingOpen(orders);
    for i := 0 to |orders|
      invariant OrdersReadable(orders[..i], {"NEW", "PARTIALLY_FILLED"}) && Unrepeated(OpenPairs(orders[..i]))
      invariant found == PairMap(OpenPairs(orders[..i]))
    {
      var o := orders[i];
      if o.client.None? || o.order.None? || o.symbol.None? { return Some(OrderPayloadInvalid), found; }
      if o.status !in {"NEW", "PARTIALLY_FILLED"} { return Some(OrderStatusUnsafe), found; }
      OneMoreOrder(orders, i);
      if o.client.value in found { return Some(DuplicateOpenOrder), found; }
      found := found[o.client.value := (o.symbol.value, o.order.value)];
      ReadableGrows(orders, i, {"NEW", "PARTIALLY_FILLED"});
    }
    assert orders[..|orders|] == orders;
  }

  /** Equal key sets, then every identity. */
  method SameOrders(expected: map<string, (string, string)>, actual: map<string, (string, string)>) returns (error: Option<Code>)
    ensures error.None? <==> actual == expected
  {
    if actual.Keys != expected.Keys { return Some(OrderSetMismatch); }
    var pending := expected.Keys;
    while pending != {}
      invariant pending <= expected.Keys
      invariant forall client :: client in expected && client !in pending ==> actual[client] == expected[client]
      decreases |pending|
    {
      var client :| client in pending;
      pending := pending - {client};
      if actual[client] != expected[client] { return Some(OrderIdentityMismatch); }
    }
    return None;
  }

  method LivePositions(positions: seq<PositionPayload>) returns (error: Option<Code>, live: map<string, R.Holding>)
    ensures error.None? <==> PositionsReadable(positions) && R.NoRepeatedPosition(PositionsOf(positions))
    ensures error.None? ==> live == R.PositionMap(PositionsOf(positions))
  {
    hide R.NoRepeatedPosition, R.RepeatedPosition, R.PositionMap;
    error, live := None, map[];
    NothingHeld(positions);
    for i := 0 to |positions|
      invariant PositionsReadable(positions[..i]) && R.NoRepeatedPosition(PositionsOf(positions[..i]))
      invariant live == R.PositionMap(PositionsOf(positions[..i]))
    {
      var p := positions[i];
      if p.symbol.None? || p.amount.None? { return Some(PositionPayloadInvalid), live; }
      PositionsReadableGrows(positions, i);
      OneMoreOpenPosition(positions, i);
      if p.amount.value != 0.0 {
        if p.symbol.value in live { return Some(DuplicateOpenPosition), live; }
        live := live[p.symbol.value := R.Holding(if p.amount.value > 0.0 then Long else Short, Abs(p.amount.value))];
      }
    }
    assert positions[..|positions|] == positions;
  }

  /** Trade by trade: direction and quantity, then the entry and both guards as the exchange reports them. */
  method VerifyTrades(trades: seq<TrackedTrade>, live: map<string, R.Holding>, ask: Query -> Report) returns (error: Option<Code>)
    requires forall i :: 0 <= i < |trades| ==> trades[i].held.symbol in live
    ensures error.None? <==> forall i :: 0 <= i < |trades| ==> live[trades[i].held.symbol] == R.HoldingOf(trades[i].held) && Confirmed(trades[i], ask)
  {
    for i := 0 to |trades|
      invariant forall k :: 0 <= k < i ==> live[trades[k].held.symbol] == R.HoldingOf(trades[k].held) && Confirmed(trades[k], ask)
    {
      var t := trades[i];
      var held := live[t.held.symbol];
      if held.direction != t.held.direction || held.quantity != t.held.executed { return Some(PositionSetMismatch); }
      if !EntryMatches(ask(Entry(t.held.symbol, t.entry.0)), t) { return Some(EntryMismatch); }
      if !GuardMatches(ask(Protective(t.held.symbol, t.stop.0)), t.stop) { return Some(ProtectionMismatch); }
      if !GuardMatches(ask(Protective(t.held.symbol, t.take.0)), t.take) { return Some(ProtectionMismatch); }
    }
    return None;
  }

  method StartupCheck(trades: seq<TrackedTrade>, regular: seq<OrderPayload>, orders: seq<OrderPayload>, positions: seq<PositionPayload>, ask: Query -> Report)
    returns (error: Option<Code>)
    ensures error.None? <==> StartupAgrees(trades, regular, orders, positions, ask)
  {
    hide PairMap, Unrepeated, R.TradeMap, R.PositionMap, R.NoRepeatedTrade, R.NoRepeatedPosition, Confirmed;
    var local, expected, found, live;
    error, local, expected := LocalState(trades);
    if error.Some? { return; }
    if regular != [] { return Some(UnexpectedRegularOrder); }
    error, found := OpenGuards(orders);
    if error.Some? { return; }
    error := SameOrders(expected, found);
    if error.Some? { return; }
    error, live := LivePositions(positions);
    if error.Some? { return; }
    if local.Keys != live.Keys { return Some(PositionSetMismatch); }
    TradesCoverTheMap(trades);
    error := VerifyTrades(trades, live, ask);
    assert error.None? ==> local == live;
  }

  /** Without repeats every trade is in the map, and the map holds nothing else. */
  lemma TradesCoverTheMap(trades: seq<TrackedTrade>)
    requires R.NoRepeatedTrade(Helds(trades))
    ensures var local := R.TradeMap(Helds(trades));
      && (forall i :: 0 <= i < |trades| ==> trades[i].held.symbol in local && local[trades[i].held.symbol] == R.HoldingOf(trades[i].held))
      && (forall symbol :: symbol in local ==> exists i :: 0 <= i < |trades| && trades[i].held.symbol == symbol)
  {
    hide R.NoRepeatedTrade, R.TradeMap;
    forall i | 0 <= i < |trades| ensures trades[i].held.symbol in R.TradeMap(Helds(trades)) && R.TradeMap(Helds(trades))[trades[i].held.symbol] == R.HoldingOf(trades[i].held) {
      R.OnlyTradeIsMapped(Helds(trades), i);
    }
    forall symbol | symbol in R.TradeMap(Helds(trades)) ensures exists i :: 0 <= i < |trades| && trades[i].held.symbol == symbol {
      R.TradeMapHas(Helds(trades), symbol);
      var i :| 0 <= i < |Helds(trades)| && Helds(trades)[i].symbol == symbol;
      assert trades[i].held.symbol == symbol;
    }
  }

  // ---------------------------------------------------------------- how the two checks differ

  /** After a startup that was accepted, the restart report on the same evidence is clean if and only if no guard has begun
      to fill: the startup check accepts a partly filled guard, the report calls it unsafe. */
  lemma ReportIsCleanExactlyWhenNoGuardFills(trades: seq<TrackedTrade>, regular: seq<OrderPayload>, orders: seq<OrderPayload>, positions: seq<PositionPayload>, ask: Query -> Report)
    requires StartupAgrees(trades, regular, orders, positions, ask)
    ensures OrdersAgree(trades, orders, {"NEW"}) && PositionsAgree(trades, positions)
      <==> forall i :: 0 <= i < |orders| ==> orders[i].status != "PARTIALLY_FILLED"
  {
    hide PairMap, Unrepeated, Confirmed, PositionsAgree;
  }

  /** Agreement about orders, read without the maps: every guard of every trade is open under its own ids and symbol, and
      every open order is a guard of some trade. */
  lemma AgreedOrdersAreTheGuards(trades: seq<TrackedTrade>, orders: seq<OrderPayload>, statuses: set<string>, p: Pair)
    requires OrdersAgree(trades, orders, statuses)
    ensures p in Protections(trades) <==> p in OpenPairs(orders)
  {
    hide PairMap;
    MapIsTheSet(Protections(trades), p);
    MapIsTheSet(OpenPairs(orders), p);
  }

  lemma {:induction false} MapIsTheSet(pairs: seq<Pair>, p: Pair)
    requires Unrepeated(pairs)
    ensures p in pairs <==> p.0 in PairMap(pairs) && PairMap(pairs)[p.0] == p.1
  {
    if pairs != [] {
      var init, last := pairs[..|pairs| - 1], pairs[|pairs| - 1];
      assert pairs == init + [last];
      PrefixUnrepeated(init, pairs);
      MapIsTheSet(init, p);
      OneMorePair(init, last);
    }
  }
}
