/** The active-trade authority (app/services/active_trade_authority.py): which durable open trades a forced account snapshot
    confirms. It rejects on its own comparison, written apart from the reconcilers'. */
module ActiveTrades {
  import opened Trading
  import opened Reconcilers

  datatype Rejection =
    | DuplicateLocalSymbol | PositionPayloadInvalid | DuplicateExchangeSymbol
    | PositionMissing | DirectionMismatch | QuantityMismatch | OrphanExchangePosition

  /** Every open position has a positive entry price. */
  predicate PricesValid(positions: seq<Position>) {
    forall i :: 0 <= i < |positions| && positions[i].amount != 0.0 ==> positions[i].entryPrice > 0.0
  }

  /** The positions not skipped as invalid. */
  function Priced(positions: seq<Position>): seq<Position> {
    if positions == [] then []
    else
      var rest, last := Priced(positions[..|positions| - 1]), positions[|positions| - 1];
      if last.amount != 0.0 && last.entryPrice <= 0.0 then rest else rest + [last]
  }

  lemma {:induction false} PricedIsAll(positions: seq<Position>)
    requires PricesValid(positions)
    ensures Priced(positions) == positions
  {
    if positions != [] { PricedIsAll(positions[..|positions| - 1]); }
  }

  lemma TradeStep(trades: seq<Trade>, i: nat)
    requires i < |trades|
    ensures NoRepeatedTrade(trades[..i + 1]) <==> NoRepeatedTrade(trades[..i]) && trades[i].symbol !in TradeMap(trades[..i])
  {
    hide RepeatedTrade, TradeMap;
    var before, after := trades[..i], trades[..i + 1];
    forall symbol ensures RepeatedTrade(after, symbol) <==> RepeatedTrade(before, symbol) || (trades[i].symbol == symbol && symbol in TradeMap(before)) {
      TradeRepeats(trades, i, symbol);
    }
  }

  lemma PositionStep(positions: seq<Position>, p: Position)
    ensures NoRepeatedPosition(positions + [p]) <==>
      NoRepeatedPosition(positions) && !(p.amount != 0.0 && p.symbol in PositionMap(positions))
  {
    hide RepeatedPosition, PositionMap;
    var all := positions + [p];
    assert all[..|positions|] == positions && all[..|positions| + 1] == all;
    forall symbol ensures RepeatedPosition(all, symbol) <==>
        RepeatedPosition(positions, symbol) || (p.amount != 0.0 && p.symbol == symbol && symbol in PositionMap(positions))
    {
      PositionRepeats(all, |positions|, symbol);
    }
  }

  /** What the two gathering loops have found after `i` positions. */
  ghost predicate Gathered(trades: seq<Trade>, positions: seq<Position>, clean: bool) {
    clean <==> NoRepeatedTrade(trades) && PricesValid(positions) && NoRepeatedPosition(Priced(positions))
  }

  lemma GatheredStep(trades: seq<Trade>, positions: seq<Position>, i: nat, clean: bool)
    requires i < |positions| && Gathered(trades, positions[..i], clean)
    ensures var p, priced := positions[i], Priced(positions[..i]);
      var invalid := p.amount != 0.0 && p.entryPrice <= 0.0;
      && Gathered(trades, positions[..i + 1], clean && !invalid && !(p.amount != 0.0 && p.symbol in PositionMap(priced)))
      && Priced(positions[..i + 1]) == if invalid then priced else priced + [p]
  {
    hide NoRepeatedTrade, NoRepeatedPosition, PositionMap;
    assert positions[..i + 1][..i] == positions[..i];
    PositionStep(Priced(positions[..i]), positions[i]);
    PricesStep(positions, i);
  }

  lemma PricesStep(positions: seq<Position>, i: nat)
    requires i < |positions|
    ensures PricesValid(positions[..i + 1]) <==> PricesValid(positions[..i]) && !(positions[i].amount != 0.0 && positions[i].entryPrice <= 0.0)
  {
    assert forall k :: 0 <= k < i ==> positions[..i + 1][k] == positions[..i][k];
    assert positions[..i + 1][i] == positions[i];
  }

  lemma MapStep(positions: seq<Position>, p: Position)
    ensures PositionMap(positions + [p]) ==
      if p.amount == 0.0 || p.symbol in PositionMap(positions) then PositionMap(positions) else PositionMap(positions)[p.symbol := Held(p.amount)]
  {
    assert (positions + [p])[..|positions|] == positions;
  }

  /** What a symbol of the local side is rejected with, if anything. */
  function Verdict(held: Holding, exchange: map<string, Holding>, symbol: string): Option<Rejection> {
    if symbol !in exchange then Some(PositionMissing)
    else if exchange[symbol].direction != held.direction then Some(DirectionMismatch)
    else if exchange[symbol].quantity != held.quantity then Some(QuantityMismatch)
    else None
  }

  /** `_verify`: rejects nothing exactly when the two sides agree and every open position has a positive entry price, and
      verifies exactly the trades whose position matches. */
  method VerifyActive(trades: seq<Trade>, positions: seq<Position>) returns (rejections: seq<Rejection>, verified: set<string>)
    ensures rejections == [] <==> Agree(trades, positions) && PricesValid(positions)
    ensures verified == set symbol | symbol in TradeMap(trades) && symbol in PositionMap(Priced(positions))
                                     && TradeMap(trades)[symbol] == PositionMap(Priced(positions))[symbol]
  {
    hide NoRepeatedTrade, NoRepeatedPosition, TradeMap, PositionMap, Gathered, Priced, PricesValid;
    rejections := [];
    var local: map<string, Holding> := map[];
    NothingGathered(trades, positions);
    for i := 0 to |trades|
      invariant local == TradeMap(trades[..i]) && (rejections == [] <==> NoRepeatedTrade(trades[..i]))
    {
      TradeStep(trades, i);
      TradeMapStep(trades, i);
      if trades[i].symbol in local {
        rejections := rejections + [DuplicateLocalSymbol];
      } else {
        local := local[trades[i].symbol := HoldingOf(trades[i])];
      }
    }
    assert trades[..|trades|] == trades;
    NothingPriced(trades, positions, rejections == []);
    var exchange: map<string, Holding> := map[];
    for i := 0 to |positions|
      invariant exchange == PositionMap(Priced(positions[..i])) && Gathered(trades, positions[..i], rejections == [])
    {
      var p := positions[i];
      GatheredStep(trades, positions, i, rejections == []);
      MapStep(Priced(positions[..i]), p);
      if p.amount == 0.0 { continue; }
      if p.entryPrice <= 0.0 {
        rejections := rejections + [PositionPayloadInvalid];
      } else if p.symbol in exchange {
        rejections := rejections + [DuplicateExchangeSymbol];
      } else {
        exchange := exchange[p.symbol := Held(p.amount)];
      }
    }
    assert positions[..|positions|] == positions;
    ghost var clean := rejections == [];
    verified := {};
    var pending := local.Keys;
    while pending != {}
      invariant pending <= local.Keys
      invariant verified == set symbol | symbol in local && symbol !in pending && Verdict(local[symbol], exchange, symbol).None?
      invariant rejections == [] <==> clean && forall symbol :: symbol in local && symbol !in pending ==> Verdict(local[symbol], exchange, symbol).None?
      decreases |pending|
    {
      var symbol :| symbol in pending;
      pending := pending - {symbol};
      var verdict := Verdict(local[symbol], exchange, symbol);
      if verdict.Some? { rejections := rejections + [verdict.value]; } else { verified := verified + {symbol}; }
    }
    if exchange.Keys - local.Keys != {} { rejections := rejections + [OrphanExchangePosition]; }
    CleanIsAgreement(trades, positions, clean);
  }

  lemma TradeMapStep(trades: seq<Trade>, i: nat)
    requires i < |trades|
    ensures TradeMap(trades[..i + 1]) ==
      if trades[i].symbol in TradeMap(trades[..i]) then TradeMap(trades[..i]) else TradeMap(trades[..i])[trades[i].symbol := HoldingOf(trades[i])]
  {
    assert trades[..i + 1][..i] == trades[..i];
  }

  lemma NothingGathered(trades: seq<Trade>, positions: seq<Position>)
    ensures TradeMap(trades[..0]) == map[] && NoRepeatedTrade(trades[..0])
  {
    EmptyHasNoRepeats();
    assert trades[..0] == [];
  }

  lemma NothingPriced(trades: seq<Trade>, positions: seq<Position>, clean: bool)
    requires clean <==> NoRepeatedTrade(trades)
    ensures Gathered(trades, positions[..0], clean) && PositionMap(Priced(positions[..0])) == map[]
  {
    EmptyHasNoRepeats();
    assert positions[..0] == [];
  }

  lemma CleanIsAgreement(trades: seq<Trade>, positions: seq<Position>, clean: bool)
    requires Gathered(trades, positions, clean)
    ensures var local, exchange := TradeMap(trades), PositionMap(Priced(positions));
      clean && (forall symbol :: symbol in local ==> Verdict(local[symbol], exchange, symbol).None?) && exchange.Keys - local.Keys == {}
      <==> Agree(trades, positions) && PricesValid(positions)
  {
    hide NoRepeatedTrade, NoRepeatedPosition, TradeMap, PositionMap, Priced, PricesValid;
    var local, exchange := TradeMap(trades), PositionMap(Priced(positions));
    if PricesValid(positions) { PricedIsAll(positions); }
    if (forall symbol :: symbol in local ==> Verdict(local[symbol], exchange, symbol).None?) && exchange.Keys - local.Keys == {} {
      forall symbol | symbol in exchange ensures symbol in local {
        assert symbol !in exchange.Keys - local.Keys;
      }
      assert local == exchange;
    }
  }
}
