/** Four independently written comparisons of tracked trades with exchange positions: the continuous reconciler
    (app/services/position_reconciliation.py), the restart report (app/services/restart_recovery.py), the startup check
    (app/services/recovery.py) and the active-trade authority (app/services/active_trade_authority.py). Payloads are
    well typed: every position has a symbol and a finite amount. */
module Reconcilers {
  import opened Trading

  datatype Trade = Trade(symbol: string, direction: Direction, executed: real)

  datatype Position = Position(symbol: string, amount: real, entryPrice: real)

  datatype Holding = Holding(direction: Direction, quantity: real)

  datatype Finding =
    | DuplicateLocal(symbol: string) | DuplicateExchange(symbol: string) | ExternalClose(symbol: string)
    | WrongDirection(symbol: string) | WrongQuantity(symbol: string) | Orphan(symbol: string)

  // ---------------------------------------------------------------- both sides as maps

  function HoldingOf(t: Trade): Holding { Holding(t.direction, t.executed) }

  function Held(amount: real): Holding { Holding(if amount > 0.0 then Long else Short, Abs(amount)) }

  /** The first trade of each symbol. */
  function TradeMap(trades: seq<Trade>): map<string, Holding> {
    if trades == [] then map[]
    else
      var rest, last := TradeMap(trades[..|trades| - 1]), trades[|trades| - 1];
      if last.symbol in rest then rest else rest[last.symbol := HoldingOf(last)]
  }

  /** The first non-zero position of each symbol. */
  function PositionMap(positions: seq<Position>): map<string, Holding> {
    if positions == [] then map[]
    else
      var rest, last := PositionMap(positions[..|positions| - 1]), positions[|positions| - 1];
      if last.amount == 0.0 || last.symbol in rest then rest else rest[last.symbol := Held(last.amount)]
  }

  ghost predicate RepeatedTrade(trades: seq<Trade>, symbol: string) {
    exists i, j :: 0 <= i < j < |trades| && trades[i].symbol == trades[j].symbol == symbol
  }

  ghost predicate RepeatedPosition(positions: seq<Position>, symbol: string) {
    exists i, j :: 0 <= i < j < |positions| && positions[i].amount != 0.0 && positions[j].amount != 0.0
      && positions[i].symbol == positions[j].symbol == symbol
  }

  ghost predicate NoRepeatedTrade(trades: seq<Trade>) { forall symbol :: !RepeatedTrade(trades, symbol) }
  ghost predicate NoRepeatedPosition(positions: seq<Position>) { forall symbol :: !RepeatedPosition(positions, symbol) }

  /** The reference: both sides free of duplicates and equal as maps from symbol to direction and quantity. */
  ghost predicate Agree(trades: seq<Trade>, positions: seq<Position>) {
    && NoRepeatedTrade(trades) && NoRepeatedPosition(positions)
    && TradeMap(trades) == PositionMap(positions)
  }

  lemma {:induction false} TradeMapHas(trades: seq<Trade>, symbol: string)
    ensures symbol in TradeMap(trades) <==> exists i :: 0 <= i < |trades| && trades[i].symbol == symbol
  {
    if trades != [] {
      var init := trades[..|trades| - 1];
      TradeMapHas(init, symbol);
      if i :| 0 <= i < |trades| && trades[i].symbol == symbol {
        if i < |init| { assert init[i].symbol == symbol; }
      }
    }
  }

  lemma {:induction false} PositionMapHas(positions: seq<Position>, symbol: string)
    ensures symbol in PositionMap(positions) <==> exists i :: 0 <= i < |positions| && positions[i].amount != 0.0 && positions[i].symbol == symbol
  {
    if positions != [] {
      var init := positions[..|positions| - 1];
      PositionMapHas(init, symbol);
      if i :| 0 <= i < |positions| && positions[i].amount != 0.0 && positions[i].symbol == symbol {
        if i < |init| { assert init[i].symbol == symbol; }
      }
    }
  }

  /** One more trade repeats its symbol exactly when the symbol is already held. */
  lemma TradeRepeats(trades: seq<Trade>, n: nat, symbol: string)
    requires n < |trades|
    ensures RepeatedTrade(trades[..n + 1], symbol) <==>
      RepeatedTrade(trades[..n], symbol) || (trades[n].symbol == symbol && symbol in TradeMap(trades[..n]))
  {
    var before, after := trades[..n], trades[..n + 1];
    TradeMapHas(before, symbol);
    if RepeatedTrade(after, symbol) {
      var i, j :| 0 <= i < j < |after| && after[i].symbol == after[j].symbol == symbol;
      if j < n { assert before[i].symbol == before[j].symbol == symbol; } else { assert before[i].symbol == symbol; }
    }
    if RepeatedTrade(before, symbol) {
      var i, j :| 0 <= i < j < |before| && before[i].symbol == before[j].symbol == symbol;
      assert after[i].symbol == after[j].symbol == symbol;
    }
    if trades[n].symbol == symbol && symbol in TradeMap(before) {
      var i :| 0 <= i < n && before[i].symbol == symbol;
      assert after[i].symbol == after[n].symbol == symbol;
    }
  }

  lemma PositionRepeats(positions: seq<Position>, n: nat, symbol: string)
    requires n < |positions|
    ensures RepeatedPosition(positions[..n + 1], symbol) <==>
      RepeatedPosition(positions[..n], symbol)
      || (positions[n].amount != 0.0 && positions[n].symbol == symbol && symbol in PositionMap(positions[..n]))
  {
    var before, after := positions[..n], positions[..n + 1];
    PositionMapHas(before, symbol);
    if RepeatedPosition(after, symbol) {
      var i, j :| 0 <= i < j < |after| && after[i].amount != 0.0 && after[j].amount != 0.0 && after[i].symbol == after[j].symbol == symbol;
      if j < n { assert before[i].symbol == before[j].symbol == symbol; } else { assert before[i].symbol == symbol; }
    }
    if RepeatedPosition(before, symbol) {
      var i, j :| 0 <= i < j < |before| && before[i].amount != 0.0 && before[j].amount != 0.0 && before[i].symbol == before[j].symbol == symbol;
      assert after[i].symbol == after[j].symbol == symbol;
    }
    if positions[n].amount != 0.0 && positions[n].symbol == symbol && symbol in PositionMap(before) {
      var i :| 0 <= i < n && before[i].amount != 0.0 && before[i].symbol == symbol;
      assert after[i].symbol == after[n].symbol == symbol;
    }
  }

  // ---------------------------------------------------------------- continuous reconciliation

  /** When a finding is due. */
  ghost predicate Due(f: Finding, trades: seq<Trade>, positions: seq<Position>) {
    var local, exchange := TradeMap(trades), PositionMap(positions);
    match f
    case DuplicateLocal(s) => RepeatedTrade(trades, s)
    case DuplicateExchange(s) => RepeatedPosition(positions, s)
    case ExternalClose(s) => s in local && s !in exchange
    case WrongDirection(s) => s in local && s in exchange && local[s].direction != exchange[s].direction
    case WrongQuantity(s) => s in local && s in exchange && local[s].quantity != exchange[s].quantity
    case Orphan(s) => s in exchange && s !in local
  }

  /** The findings of the two gathering loops. */
  ghost predicate GatherFindings(findings: seq<Finding>, trades: seq<Trade>, positions: seq<Position>) {
    forall f :: f in findings <==> (f.DuplicateLocal? && RepeatedTrade(trades, f.symbol)) || (f.DuplicateExchange? && RepeatedPosition(positions, f.symbol))
  }

  method GatherTrades(trades: seq<Trade>) returns (findings: seq<Finding>, local: map<string, Holding>)
    ensures local == TradeMap(trades)
    ensures GatherFindings(findings, trades, [])
  {
    hide RepeatedTrade;
    findings, local := [], map[];
    assert GatherFindings([], [], []) by { NothingRepeats(); }
    for i := 0 to |trades|
      invariant local == TradeMap(trades[..i]) && GatherFindings(findings, trades[..i], [])
    {
      var t := trades[i];
      assert trades[..i + 1][..i] == trades[..i];
      forall symbol ensures RepeatedTrade(trades[..i + 1], symbol) <==>
          RepeatedTrade(trades[..i], symbol) || (t.symbol == symbol && symbol in TradeMap(trades[..i]))
      {
        TradeRepeats(trades, i, symbol);
      }
      if t.symbol in local {
        findings := findings + [DuplicateLocal(t.symbol)];
      } else {
        local := local[t.symbol := HoldingOf(t)];
      }
    }
    assert trades[..|trades|] == trades;
  }

  lemma NothingRepeats()
    ensures forall symbol :: !RepeatedTrade([], symbol) && !RepeatedPosition([], symbol)
  {
  }

  method GatherPositions(before: seq<Finding>, trades: seq<Trade>, positions: seq<Position>) returns (findings: seq<Finding>, exchange: map<string, Holding>)
    requires GatherFindings(before, trades, [])
    ensures exchange == PositionMap(positions)
    ensures GatherFindings(findings, trades, positions)
  {
    hide RepeatedPosition, RepeatedTrade, Held;
    findings, exchange := before, map[];
    for i := 0 to |positions|
      invariant exchange == PositionMap(positions[..i]) && GatherFindings(findings, trades, positions[..i])
    {
      var p := positions[i];
      assert positions[..i + 1][..i] == positions[..i];
      forall symbol ensures RepeatedPosition(positions[..i + 1], symbol) <==>
          RepeatedPosition(positions[..i], symbol) || (p.amount != 0.0 && p.symbol == symbol && symbol in PositionMap(positions[..i]))
      {
        PositionRepeats(positions, i, symbol);
      }
      if p.amount != 0.0 {
        if p.symbol in exchange {
          findings := findings + [DuplicateExchange(p.symbol)];
        } else {
          exchange := exchange[p.symbol := Held(p.amount)];
        }
      }
    }
    assert positions[..|positions|] == positions;
  }

  /** What the comparison of two maps adds for one symbol. */
  function CompareSymbol(symbol: string, local: map<string, Holding>, exchange: map<string, Holding>): seq<Finding>
    requires symbol in local
  {
    if symbol !in exchange then [ExternalClose(symbol)]
    else
      (if exchange[symbol].direction != local[symbol].direction then [WrongDirection(symbol)] else [])
      + (if exchange[symbol].quantity != local[symbol].quantity then [WrongQuantity(symbol)] else [])
  }

  method CompareHeld(local: map<string, Holding>, exchange: map<string, Holding>) returns (findings: seq<Finding>)
    ensures forall f :: f in findings <==> f.symbol in local && f in CompareSymbol(f.symbol, local, exchange)
  {
    findings := [];
    var pending := local.Keys;
    while pending != {}
      invariant pending <= local.Keys
      invariant forall f :: f in findings <==> f.symbol in local && f.symbol !in pending && f in CompareSymbol(f.symbol, local, exchange)
      decreases |pending|
    {
      var symbol :| symbol in pending;
      pending := pending - {symbol};
      SymbolOfFinding(symbol, local, exchange);
      hide CompareSymbol;
      findings := findings + CompareSymbol(symbol, local, exchange);
    }
  }

  lemma SymbolOfFinding(symbol: string, local: map<string, Holding>, exchange: map<string, Holding>)
    requires symbol in local
    ensures forall f :: f in CompareSymbol(symbol, local, exchange) ==> f.symbol == symbol
  {
  }

  method ReportOrphans(local: map<string, Holding>, exchange: map<string, Holding>) returns (findings: seq<Finding>)
    ensures forall f :: f in findings <==> f.Orphan? && f.symbol in exchange && f.symbol !in local
  {
    findings := [];
    var pending := exchange.Keys - local.Keys;
    while pending != {}
      invariant pending <= exchange.Keys - local.Keys
      invariant forall f :: f in findings <==> f.Orphan? && f.symbol in exchange && f.symbol !in local && f.symbol !in pending
      decreases |pending|
    {
      var symbol :| symbol in pending;
      pending := pending - {symbol};
      findings := findings + [Orphan(symbol)];
    }
  }

  /** `_compare`: reports exactly the findings that are due. */
  method Compare(trades: seq<Trade>, positions: seq<Position>) returns (findings: seq<Finding>, openPositions: nat)
    ensures forall f :: f in findings <==> Due(f, trades, positions)
    ensures findings == [] <==> Agree(trades, positions)
    ensures openPositions == |PositionMap(positions)|
  {
    hide RepeatedPosition, RepeatedTrade, TradeMap, PositionMap, CompareSymbol, Due, Agree;
    var gathered, local := GatherTrades(trades);
    var exchange;
    gathered, exchange := GatherPositions(gathered, trades, positions);
    var held := CompareHeld(local, exchange);
    var orphans := ReportOrphans(local, exchange);
    findings, openPositions := gathered + held + orphans, |exchange|;
    forall f ensures f in findings <==> Due(f, trades, positions) {
      DueByParts(f, trades, positions);
    }
    EmptyWhenNothingDue(findings, trades, positions);
  }

  lemma DueByParts(f: Finding, trades: seq<Trade>, positions: seq<Position>)
    ensures var local, exchange := TradeMap(trades), PositionMap(positions);
      Due(f, trades, positions) <==>
        (f.DuplicateLocal? && RepeatedTrade(trades, f.symbol)) || (f.DuplicateExchange? && RepeatedPosition(positions, f.symbol))
        || (f.symbol in local && f in CompareSymbol(f.symbol, local, exchange))
        || (f.Orphan? && f.symbol in exchange && f.symbol !in local)
  {
    hide RepeatedPosition, RepeatedTrade, TradeMap, PositionMap;
  }

  /** No finding is due exactly when the two sides agree. */
  lemma NothingDueIsAgreement(trades: seq<Trade>, positions: seq<Position>)
    ensures (forall f :: !Due(f, trades, positions)) <==> Agree(trades, positions)
  {
    hide RepeatedPosition, RepeatedTrade, TradeMap, PositionMap;
    var local, exchange := TradeMap(trades), PositionMap(positions);
    if forall f :: !Due(f, trades, positions) {
      forall symbol ensures !RepeatedTrade(trades, symbol) && !RepeatedPosition(positions, symbol) {
        assert !Due(DuplicateLocal(symbol), trades, positions) && !Due(DuplicateExchange(symbol), trades, positions);
      }
      forall symbol ensures symbol in local <==> symbol in exchange {
        assert !Due(ExternalClose(symbol), trades, positions) && !Due(Orphan(symbol), trades, positions);
      }
      forall symbol | symbol in local ensures local[symbol] == exchange[symbol] {
        assert !Due(WrongDirection(symbol), trades, positions) && !Due(WrongQuantity(symbol), trades, positions);
      }
      assert local == exchange;
    }
    if Agree(trades, positions) {
      forall f ensures !Due(f, trades, positions) {
      }
    }
  }

  lemma EmptyWhenNothingDue(findings: seq<Finding>, trades: seq<Trade>, positions: seq<Position>)
    requires forall f :: f in findings <==> Due(f, trades, positions)
    ensures findings == [] <==> Agree(trades, positions)
  {
    hide Due, Agree;
    NothingDueIsAgreement(trades, positions);
    if findings != [] { assert findings[0] in findings; }
  }

  // ---------------------------------------------------------------- repeats, one entry at a time

  lemma EmptyHasNoRepeats()
    ensures NoRepeatedTrade([]) && NoRepeatedPosition([])
  {
  }

  lemma OneMoreTrade(trades: seq<Trade>, n: nat)
    requires n < |trades| && NoRepeatedTrade(trades[..n])
    ensures trades[n].symbol in TradeMap(trades[..n]) ==> !NoRepeatedTrade(trades)
    ensures trades[n].symbol !in TradeMap(trades[..n]) ==> NoRepeatedTrade(trades[..n + 1])
  {
    hide RepeatedTrade, TradeMap;
    var after := trades[..n + 1];
    forall symbol ensures RepeatedTrade(after, symbol) == (trades[n].symbol == symbol && symbol in TradeMap(trades[..n])) {
      TradeRepeats(trades, n, symbol);
    }
    if RepeatedTrade(after, trades[n].symbol) { RepeatPersists(trades, n + 1, trades[n].symbol); }
  }

  lemma OneMorePosition(positions: seq<Position>, n: nat)
    requires n < |positions| && NoRepeatedPosition(positions[..n])
    ensures positions[n].amount != 0.0 && positions[n].symbol in PositionMap(positions[..n]) ==> !NoRepeatedPosition(positions)
    ensures positions[n].amount == 0.0 || positions[n].symbol !in PositionMap(positions[..n]) ==> NoRepeatedPosition(positions[..n + 1])
  {
    hide RepeatedPosition, PositionMap;
    var after, p := positions[..n + 1], positions[n];
    forall symbol ensures RepeatedPosition(after, symbol) == (p.amount != 0.0 && p.symbol == symbol && symbol in PositionMap(positions[..n])) {
      PositionRepeats(positions, n, symbol);
    }
    if RepeatedPosition(after, p.symbol) { RepeatPositionPersists(positions, n + 1, p.symbol); }
  }

  lemma RepeatPersists(trades: seq<Trade>, n: nat, symbol: string)
    requires n <= |trades| && RepeatedTrade(trades[..n], symbol)
    ensures RepeatedTrade(trades, symbol)
  {
    var i, j :| 0 <= i < j < n && trades[..n][i].symbol == trades[..n][j].symbol == symbol;
    assert trades[i].symbol == trades[j].symbol == symbol;
  }

  lemma RepeatPositionPersists(positions: seq<Position>, n: nat, symbol: string)
    requires n <= |positions| && RepeatedPosition(positions[..n], symbol)
    ensures RepeatedPosition(positions, symbol)
  {
    var shown := positions[..n];
    var i, j :| 0 <= i < j < |shown| && shown[i].amount != 0.0 && shown[j].amount != 0.0 && shown[i].symbol == shown[j].symbol == symbol;
    assert positions[i].symbol == positions[j].symbol == symbol;
  }

  // ---------------------------------------------------------------- what agreement says of one symbol

  lemma {:induction false} OnlyTradeIsMapped(trades: seq<Trade>, i: nat)
    requires i < |trades| && NoRepeatedTrade(trades)
    ensures trades[i].symbol in TradeMap(trades) && TradeMap(trades)[trades[i].symbol] == HoldingOf(trades[i])
  {
    hide RepeatedTrade;
    var init, last := trades[..|trades| - 1], trades[|trades| - 1];
    assert trades[..|trades|] == trades;
    forall symbol ensures RepeatedTrade(init, symbol) ==> RepeatedTrade(trades, symbol) {
      if RepeatedTrade(init, symbol) { RepeatPersists(trades, |init|, symbol); }
    }
    TradeRepeats(trades, |init|, last.symbol);
    if i < |init| { OnlyTradeIsMapped(init, i); }
  }

  lemma {:induction false} OnlyPositionIsMapped(positions: seq<Position>, i: nat)
    requires i < |positions| && positions[i].amount != 0.0 && NoRepeatedPosition(positions)
    ensures positions[i].symbol in PositionMap(positions) && PositionMap(positions)[positions[i].symbol] == Held(positions[i].amount)
  {
    hide RepeatedPosition, Held;
    var init, last := positions[..|positions| - 1], positions[|positions| - 1];
    assert positions[..|positions|] == positions;
    forall symbol ensures RepeatedPosition(init, symbol) ==> RepeatedPosition(positions, symbol) {
      if RepeatedPosition(init, symbol) { RepeatPositionPersists(positions, |init|, symbol); }
    }
    PositionRepeats(positions, |init|, last.symbol);
    if i < |init| { OnlyPositionIsMapped(init, i); }
  }

  /** Two sides that agree hold the same quantity wherever a tracked trade meets a position. */
  lemma AgreementIsEntryQuantity(trades: seq<Trade>, positions: seq<Position>, i: nat, j: nat)
    requires Agree(trades, positions) && i < |trades| && j < |positions|
    requires trades[i].symbol == positions[j].symbol && positions[j].amount != 0.0
    ensures trades[i].executed == Abs(positions[j].amount)
    ensures trades[i].direction == if positions[j].amount > 0.0 then Long else Short
  {
    hide RepeatedTrade, RepeatedPosition, TradeMap, PositionMap;
    OnlyTradeIsMapped(trades, i);
    OnlyPositionIsMapped(positions, j);
  }
}
