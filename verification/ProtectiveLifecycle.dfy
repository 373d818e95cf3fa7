/** Protective lifecycle of one open trade (app/services/protective_lifecycle.py): exchange fills of the stop or the
    take-profit become durable events exactly once, and the durable trade row follows them. */
module ProtectiveLifecycle {
  import opened Trading

  datatype Reason = StopLoss | TakeProfit

  datatype EventType = PartialClose | Closing(reason: Reason)

  datatype Fill = Fill(id: string, quantity: real, price: real, at: int)

  datatype Event = Event(fillId: string, kind: EventType, reason: Reason, quantity: real, price: real, cumulative: real, remaining: real, at: int)

  datatype Economics = Economics(exitPrice: real, gross: real, net: real, commission: real, funding: real)

  datatype Exit = Exit(quantity: real, notional: real, fillIds: set<string>, reason: Reason, partialCloses: nat, lastFill: string, lastAt: int)

  /** Client and exchange id of a protective order. */
  datatype GuardId = GuardId(client: string, order: string)

  /** `subject` is the signal and symbol a trade row is about. */
  datatype Trade = Trade(
    subject: (string, string), stop: GuardId, take: GuardId, direction: Direction, executed: real, closed: bool, remaining: Option<real>, exit: Option<Exit>,
    siblingCancelled: Option<bool>, economics: Option<Economics>, closedReason: Option<Reason>, closedAt: Option<int>, updatedAt: int)
  {
    function EffectiveOpen(): real {
      if remaining.Some? then remaining.value else executed
    }
  }

  datatype Status = New | PartiallyFilled | Filled | Finished | Canceled | Expired | OtherStatus | Missing

  /** A protective order as queried; `actual` is the order the trigger created, if it fired. */
  datatype Algo = Algo(client: Option<string>, order: Option<string>, actual: Option<int>, status: Status, executed: Option<real>)

  /** The queried order is the one the trade knows. */
  predicate Identified(algo: Algo, id: GuardId) {
    algo.client == Some(id.client) && algo.order == Some(id.order) && algo.status != Missing
  }

  /** One row of the account's trade history for the trade's symbol. */
  datatype Payload = Payload(order: int, id: Option<string>, closes: bool, quantity: real, price: real, at: int)

  datatype Position = Position(direction: Direction, quantity: real)

  datatype Code =
    | OrderIdentityInvalid | TradeIdentityMismatch | FillWindowTruncated | FillIdentityInvalid | DecimalInvalid | ConflictingFills | UnverifiedClose | DirectionMismatch
    | UnverifiedReduction | ExitExceedsEntry | FillQuantityMismatch | PartialStatusInvalid | TerminalStatusInvalid
    | PositionRemains | PartialPositionMissing | RemainingMismatch | EventIdentityInvalid | EventEvidenceMissing | EconomicsUnverified | SiblingCancelInvalid

  datatype Observation = Observation(reason: Reason, fills: seq<Fill>, remaining: real, siblingCancelled: bool)

  /** Everything one reconciliation reads for the trade. `cancelConfirmed` answers the sibling cancellation should it
      be sent; `economics` answers the full-close verification should it be needed. */
  datatype Evidence = Evidence(
    stop: Algo, take: Algo, payloads: seq<Payload>, position: Option<Position>,
    cancelConfirmed: bool, economics: Option<Economics>, now: int)

  // ---------------------------------------------------------------- fills in (time, id) order

  predicate Before(a: Fill, b: Fill) {
    a.at < b.at || (a.at == b.at && TextLess(a.id, b.id))
  }

  /** Fills with different ids are strictly ordered one way or the other. */
  lemma BeforeOrders(a: Fill, b: Fill)
    ensures !(Before(a, b) && Before(b, a))
    ensures a.id != b.id ==> Before(a, b) || Before(b, a)
  {
    hide TextLess;
    TextLessAsymmetric(a.id, b.id);
    TextLessTotal(a.id, b.id);
  }

  lemma BeforeChains(a: Fill, b: Fill, c: Fill)
    requires Before(a, b) && Before(b, c)
    ensures Before(a, c)
  {
    hide TextLess;
    if a.at == b.at && b.at == c.at {
      TextLessSplits(a.id, c.id, b.id);
      TextLessAsymmetric(b.id, c.id);
    }
  }

  predicate Sorted(fills: seq<Fill>) {
    forall i, j :: 0 <= i < j < |fills| ==> Before(fills[i], fills[j])
  }

  predicate Positive(fills: seq<Fill>) {
    forall i :: 0 <= i < |fills| ==> fills[i].quantity > 0.0
  }

  predicate DistinctIds(fills: seq<Fill>) {
    forall i, j :: 0 <= i < j < |fills| ==> fills[i].id != fills[j].id
  }

  function Total(fills: seq<Fill>): real {
    if fills == [] then 0.0 else Total(fills[..|fills| - 1]) + fills[|fills| - 1].quantity
  }

  function Notional(fills: seq<Fill>): real {
    if fills == [] then 0.0 else Notional(fills[..|fills| - 1]) + fills[|fills| - 1].quantity * fills[|fills| - 1].price
  }

  function Ids(fills: seq<Fill>): set<string> {
    set i | 0 <= i < |fills| :: fills[i].id
  }

  predicate AllBefore(fills: seq<Fill>, fill: Fill) {
    forall f :: f in fills ==> Before(f, fill)
  }

  function Insert(fills: seq<Fill>, fill: Fill): seq<Fill> {
    if fills == [] || Before(fills[|fills| - 1], fill) then fills + [fill]
    else Insert(fills[..|fills| - 1], fill) + [fills[|fills| - 1]]
  }

  function SortFills(fills: seq<Fill>): seq<Fill> {
    if fills == [] then [] else Insert(SortFills(fills[..|fills| - 1]), fills[|fills| - 1])
  }

  lemma {:induction false} InsertKeeps(fills: seq<Fill>, fill: Fill)
    ensures multiset(Insert(fills, fill)) == multiset(fills) + multiset{fill}
  {
    if fills != [] && !Before(fills[|fills| - 1], fill) {
      InsertKeeps(fills[..|fills| - 1], fill);
      assert fills == fills[..|fills| - 1] + [fills[|fills| - 1]];
    }
  }

  lemma {:induction false} InsertSorts(fills: seq<Fill>, fill: Fill)
    requires Sorted(fills) && forall f :: f in fills ==> f.id != fill.id
    ensures Sorted(Insert(fills, fill))
  {
    hide Before;
    if fills != [] {
      var init, last := fills[..|fills| - 1], fills[|fills| - 1];
      if Before(last, fill) {
        LastIsLatest(fills);
        BeforeTransitive(fills, last, fill);
        AppendSorted(fills, fill);
      } else {
        InsertSorts(init, fill);
        InsertKeeps(init, fill);
        LastIsLatest(fills);
        forall f | f in Insert(init, fill) ensures Before(f, last) {
          assert f in multiset(Insert(init, fill));
          assert f in init || f == fill;
          BeforeOrders(last, fill);
        }
        AppendSorted(Insert(init, fill), last);
      }
    }
  }

  lemma LastIsLatest(fills: seq<Fill>)
    requires fills != [] && Sorted(fills)
    ensures Sorted(fills[..|fills| - 1]) && AllBefore(fills[..|fills| - 1], fills[|fills| - 1])
  {
  }

  lemma BeforeTransitive(fills: seq<Fill>, last: Fill, fill: Fill)
    requires Before(last, fill) && forall f :: f in fills ==> f == last || Before(f, last)
    ensures AllBefore(fills, fill)
  {
    hide Before;
    forall f | f in fills ensures Before(f, fill) {
      if f != last { BeforeChains(f, last, fill); }
    }
  }

  lemma AppendSorted(fills: seq<Fill>, fill: Fill)
    requires Sorted(fills) && AllBefore(fills, fill)
    ensures Sorted(fills + [fill])
  {
    hide Before;
  }

  lemma {:induction false} InsertKeepsIdsDistinct(fills: seq<Fill>, fill: Fill)
    requires DistinctIds(fills) && forall f :: f in fills ==> f.id != fill.id
    ensures DistinctIds(Insert(fills, fill))
  {
    hide Before;
    if fills != [] && !Before(fills[|fills| - 1], fill) {
      var init, last := fills[..|fills| - 1], fills[|fills| - 1];
      InsertKeepsIdsDistinct(init, fill);
      InsertKeeps(init, fill);
      forall f | f in Insert(init, fill) ensures f.id != last.id {
        assert f in multiset(Insert(init, fill));
        assert f in init || f == fill;
      }
    }
  }

  /** Sorting fills with distinct ids gives a strictly ordered rearrangement. */
  lemma {:induction false} SortingIsCorrect(fills: seq<Fill>)
    requires DistinctIds(fills)
    ensures Sorted(SortFills(fills)) && DistinctIds(SortFills(fills)) && multiset(SortFills(fills)) == multiset(fills)
  {
    hide Before;
    if fills != [] {
      var init, last := fills[..|fills| - 1], fills[|fills| - 1];
      SortingIsCorrect(init);
      assert fills == init + [last];
      forall f | f in SortFills(init) ensures f.id != last.id {
        assert f in multiset(SortFills(init));
        assert f in init;
      }
      InsertSorts(SortFills(init), last);
      InsertKeepsIdsDistinct(SortFills(init), last);
      InsertKeeps(SortFills(init), last);
    }
  }

  // ---------------------------------------------------------------- collecting the fills of one order

  predicate Belongs(p: Payload, order: int) { p.order == order }

  predicate Acceptable(p: Payload) { p.id.Some? && p.closes && p.quantity > 0.0 && p.price > 0.0 }

  function FillOf(p: Payload): Fill
    requires p.id.Some?
  {
    Fill(p.id.value, p.quantity, p.price, p.at)
  }

  /** The rows of `order` as fills, in arrival order, or the first defect. */
  function Collect(payloads: seq<Payload>, order: int): Result<seq<Fill>, Code> {
    if payloads == [] then Ok([])
    else
      var rest :- Collect(payloads[..|payloads| - 1], order);
      var p := payloads[|payloads| - 1];
      if !Belongs(p, order) then Ok(rest)
      else if p.id.None? || p.id.value in Ids(rest) || !p.closes then Err(FillIdentityInvalid)
      else if p.quantity <= 0.0 || p.price <= 0.0 then Err(DecimalInvalid)
      else Ok(rest + [FillOf(p)])
  }

  /** The verified fills of one protective order; an order that never triggered has none. */
  function Fills(payloads: seq<Payload>, algo: Algo): Result<seq<Fill>, Code> {
    if algo.actual.None? then Ok([])
    else
      var fills :- Collect(payloads, algo.actual.value);
      Ok(SortFills(fills))
  }

  method CollectFills(payloads: seq<Payload>, algo: Algo) returns (result: Result<seq<Fill>, Code>)
    ensures result == Fills(payloads, algo)
  {
    hide SortFills;
    if algo.actual.None? { return Ok([]); }
    var order := algo.actual.value;
    var fills: seq<Fill>, seen: set<string> := [], {};
    for i := 0 to |payloads|
      invariant Collect(payloads[..i], order) == Ok(fills) && seen == Ids(fills)
    {
      var p := payloads[i];
      assert payloads[..i + 1][..i] == payloads[..i];
      DefectsPersist(payloads, order, i + 1);
      if Belongs(p, order) {
        if p.id.None? || p.id.value in seen || !p.closes { return Err(FillIdentityInvalid); }
        if p.quantity <= 0.0 || p.price <= 0.0 { return Err(DecimalInvalid); }
        IdsGrow(fills, FillOf(p));
        fills, seen := fills + [FillOf(p)], seen + {p.id.value};
      }
    }
    assert payloads[..|payloads|] == payloads;
    return Ok(SortFills(fills));
  }

  lemma {:induction false} DefectsPersist(payloads: seq<Payload>, order: int, i: nat)
    requires i <= |payloads|
    ensures Collect(payloads[..i], order).Err? ==> Collect(payloads, order) == Collect(payloads[..i], order)
  {
    if i < |payloads| {
      var init := payloads[..|payloads| - 1];
      DefectsPersist(init, order, i);
      assert init[..i] == payloads[..i];
    } else {
      assert payloads[..i] == payloads;
    }
  }

  lemma IdsGrow(fills: seq<Fill>, fill: Fill)
    ensures Ids(fills + [fill]) == Ids(fills) + {fill.id}
  {
    forall x | x in Ids(fills) + {fill.id} ensures x in Ids(fills + [fill]) {
      if x == fill.id {
        assert (fills + [fill])[|fills|].id == x;
      } else {
        var i :| 0 <= i < |fills| && fills[i].id == x;
        assert (fills + [fill])[i].id == x;
      }
    }
  }

  function RowsOf(payloads: seq<Payload>, order: int): nat {
    if payloads == [] then 0 else RowsOf(payloads[..|payloads| - 1], order) + if Belongs(payloads[|payloads| - 1], order) then 1 else 0
  }

  /** What a successful collection promises: every row of the order is there once, acceptable and in order. */
  lemma CollectedFills(payloads: seq<Payload>, order: int)
    requires Collect(payloads, order).Ok?
    ensures var fills := SortFills(Collect(payloads, order).value);
      && Sorted(fills) && Positive(fills) && DistinctIds(fills) && (forall i :: 0 <= i < |fills| ==> fills[i].price > 0.0)
      && (forall i :: 0 <= i < |payloads| && Belongs(payloads[i], order) ==> Acceptable(payloads[i]) && FillOf(payloads[i]) in fills)
      && |fills| == RowsOf(payloads, order)
  {
    var raw := Collect(payloads, order).value;
    RawFills(payloads, order);
    RawCount(payloads, order);
    SortingIsCorrect(raw);
    var fills := SortFills(raw);
    forall i | 0 <= i < |fills| ensures fills[i].quantity > 0.0 && fills[i].price > 0.0 {
      assert fills[i] in multiset(fills);
      assert fills[i] in raw;
    }
    forall i | 0 <= i < |payloads| && Belongs(payloads[i], order) ensures FillOf(payloads[i]) in fills {
      assert FillOf(payloads[i]) in multiset(raw);
    }
    assert |multiset(fills)| == |multiset(raw)|;
  }

  lemma {:induction false} RawFills(payloads: seq<Payload>, order: int)
    requires Collect(payloads, order).Ok?
    ensures var raw := Collect(payloads, order).value;
      && DistinctIds(raw) && Positive(raw) && (forall i :: 0 <= i < |raw| ==> raw[i].price > 0.0)
      && (forall i :: 0 <= i < |payloads| && Belongs(payloads[i], order) ==> Acceptable(payloads[i]) && FillOf(payloads[i]) in raw)
  {
    if payloads != [] {
      RawFills(payloads[..|payloads| - 1], order);
    }
  }

  lemma {:induction false} RawCount(payloads: seq<Payload>, order: int)
    requires Collect(payloads, order).Ok?
    ensures |Collect(payloads, order).value| == RowsOf(payloads, order)
  {
    if payloads != [] {
      RawCount(payloads[..|payloads| - 1], order);
    }
  }

  /** The rows of the order can be read: each has an id, closes the position and is of positive size and price, and no id
      comes twice. */
  ghost predicate Legible(payloads: seq<Payload>, order: int) {
    && (forall i :: 0 <= i < |payloads| && payloads[i].order == order ==>
          payloads[i].id.Some? && payloads[i].closes && payloads[i].quantity > 0.0 && payloads[i].price > 0.0)
    && (forall i, j :: 0 <= i < j < |payloads| && payloads[i].order == order && payloads[j].order == order ==> payloads[i].id != payloads[j].id)
  }

  /** A row of the order with this id. */
  ghost predicate HasRow(payloads: seq<Payload>, order: int, id: string) {
    exists i :: 0 <= i < |payloads| && payloads[i].order == order && payloads[i].id == Some(id)
  }

  /** The collection succeeds exactly when the rows of the order are legible, and its ids are theirs. */
  lemma {:induction false} CollectedExactlyWhenLegible(payloads: seq<Payload>, order: int)
    ensures Collect(payloads, order).Ok? <==> Legible(payloads, order)
    ensures Collect(payloads, order).Ok? ==> forall id :: id in Ids(Collect(payloads, order).value) <==> HasRow(payloads, order, id)
  {
    hide Ids, HasRow, Legible;
    if payloads == [] {
      NoRows(order);
    } else {
      var init, last := payloads[..|payloads| - 1], payloads[|payloads| - 1];
      CollectedExactlyWhenLegible(init, order);
      OneMoreLegible(payloads, order);
      OneMoreRow(payloads, order);
      if Collect(init, order).Ok? && last.id.Some? { IdsGrow(Collect(init, order).value, FillOf(last)); }
    }
  }

  lemma NoRows(order: int)
    ensures Ids([]) == {} && Legible([], order) && forall id :: !HasRow([], order, id)
  {
  }

  lemma OneMoreRow(payloads: seq<Payload>, order: int)
    requires payloads != []
    ensures var init, last := payloads[..|payloads| - 1], payloads[|payloads| - 1];
      forall id :: HasRow(payloads, order, id) <==> HasRow(init, order, id) || (last.order == order && last.id == Some(id))
  {
    var init, last := payloads[..|payloads| - 1], payloads[|payloads| - 1];
    forall id ensures HasRow(payloads, order, id) <==> HasRow(init, order, id) || (last.order == order && last.id == Some(id)) {
      if i :| 0 <= i < |init| && init[i].order == order && init[i].id == Some(id) { assert payloads[i] == init[i]; }
      if i :| 0 <= i < |payloads| && payloads[i].order == order && payloads[i].id == Some(id) {
        if i < |init| { assert init[i] == payloads[i]; }
      }
      assert payloads[|payloads| - 1] == last;
    }
  }

  lemma OneMoreLegible(payloads: seq<Payload>, order: int)
    requires payloads != []
    ensures var init, last := payloads[..|payloads| - 1], payloads[|payloads| - 1];
      Legible(payloads, order) <==>
        && Legible(init, order)
        && (last.order == order ==>
              && last.id.Some? && last.closes && last.quantity > 0.0 && last.price > 0.0
              && !HasRow(init, order, last.id.value))
  {
    var init, last := payloads[..|payloads| - 1], payloads[|payloads| - 1];
    assert forall i :: 0 <= i < |init| ==> init[i] == payloads[i];
    assert payloads[|payloads| - 1] == last;
  }
}
