/** When a raw row becomes a candidate and how the rankings compare, in fields (app/services/universe.py). */
module UniverseRules {
  import opened Trading
  import opened Universe

  /** The symbol of a row: its name, or a placeholder with its index when it has none. */
  lemma NameExactly(row: RawRow, index: nat)
    ensures NameOf(row, index) == if row.NotAnObject? || row.name == None || row.name == Some("") then "<unknown:" + Digits(index) + ">" else row.name.value
  {
  }

  /** The spread in basis points of the middle price. */
  function Bps(bid: real, ask: real): real
    requires bid + ask > 0.0
  {
    20000.0 * (ask - bid) / (bid + ask)
  }

  lemma SpreadIsBps(bid: real, ask: real)
    requires bid > 0.0 && ask > 0.0
    ensures SpreadBps(bid, ask) == Bps(bid, ask)
  {
    var d, s, q := ask - bid, bid + ask, SpreadBps(bid, ask);
    assert q == d / (s / 2.0) * 10000.0;
    assert d / (s / 2.0) * (s / 2.0) == d;
    assert q * s == 20000.0 * d;
    assert 20000.0 * d / s * s == 20000.0 * d;
  }

  /** A fresh symbol of a trading USDT perpetual with a base asset, enough volume, a two-sided book and a narrow spread. */
  ghost predicate Tradable(symbol: string, row: RawRow, seen: set<string>, market: Market, limits: Limits) {
    && row.Object? && symbol !in seen && !("<unknown:" <= symbol) && row.usdt && row.perpetual && row.trading
    && row.base.Some? && row.base.value != ""
    && symbol in market.tickers && symbol in market.books
    && (var volume := market.tickers[symbol].quoteVolume; volume.Some? && volume.value >= 0.0 && volume.value >= limits.minQuoteVolume)
    && (var book := market.books[symbol];
        && book.bid.Some? && book.ask.Some? && 0.0 < book.bid.value <= book.ask.value && Bps(book.bid.value, book.ask.value) <= limits.maxSpreadBps)
  }

  /** A row is eligible exactly when it is tradable, and its record is what ticker and book say; a missing change or count is
      zero, and so is a negative count. */
  lemma EligibleExactlyWhen(symbol: string, row: RawRow, seen: set<string>, market: Market, limits: Limits)
    ensures var r := Classify(symbol, row, seen, market, limits);
      && (r.Ok? <==> Tradable(symbol, row, seen, market, limits))
      && (r.Ok? ==>
            var e, ticker, book := r.value, market.tickers[symbol], market.books[symbol];
            && e.symbol == symbol && Some(e.quoteVolume) == ticker.quoteVolume && Some(e.bid) == book.bid && Some(e.ask) == book.ask
            && e.change == (if ticker.change.Some? then ticker.change.value else 0.0)
            && e.trades == (if ticker.count.Some? && ticker.count.value > 0.0 then ticker.count.value else 0.0)
            && e.spreadBps == Bps(e.bid, e.ask))
  {
    hide SpreadBps, Bps;
    if symbol in market.books {
      var book := market.books[symbol];
      if book.bid.Some? && book.ask.Some? && book.bid.value > 0.0 && book.ask.value > 0.0 { SpreadIsBps(book.bid.value, book.ask.value); }
    }
  }

  /** What each rejection claims. */
  ghost predicate Claims(code: Code, symbol: string, row: RawRow, seen: set<string>, market: Market, limits: Limits) {
    match code
    case InvalidMetadata => row.NotAnObject? || symbol in seen || "<unknown:" <= symbol || row.base.None? || row.base.value == ""
    case NonUsdt => row.Object? && !row.usdt
    case NonPerpetual => row.Object? && !row.perpetual
    case NotTrading => row.Object? && !row.trading
    case MissingTicker => symbol !in market.tickers
    case InvalidQuoteVolume => symbol in market.tickers && (market.tickers[symbol].quoteVolume.None? || market.tickers[symbol].quoteVolume.value < 0.0)
    case BelowMinimumVolume =>
      symbol in market.tickers && market.tickers[symbol].quoteVolume.Some? && market.tickers[symbol].quoteVolume.value < limits.minQuoteVolume
    case MissingBook => symbol !in market.books
    case InvalidBook =>
      symbol in market.books && (var b := market.books[symbol]; b.bid.None? || b.ask.None? || b.bid.value <= 0.0 || b.ask.value < b.bid.value)
    case SpreadTooWide =>
      symbol in market.books && (var b := market.books[symbol];
        b.bid.Some? && b.ask.Some? && b.bid.value > 0.0 && b.ask.value > 0.0 && Bps(b.bid.value, b.ask.value) > limits.maxSpreadBps)
    case UniverseLimit => false
  }

  lemma RejectedForATrueReason(symbol: string, row: RawRow, seen: set<string>, market: Market, limits: Limits)
    ensures var r := Classify(symbol, row, seen, market, limits); r.Err? ==> Claims(r.error, symbol, row, seen, market, limits)
  {
    hide SpreadBps, Bps;
    if symbol in market.books {
      var book := market.books[symbol];
      if book.bid.Some? && book.ask.Some? && book.bid.value > 0.0 && book.ask.value > 0.0 { SpreadIsBps(book.bid.value, book.ask.value); }
    }
  }

  // ---------------------------------------------------------------- rankings

  /** By higher volume, then narrower spread, then symbol. */
  predicate MoreLiquid(a: Eligible, b: Eligible) {
    if a.quoteVolume != b.quoteVolume then a.quoteVolume > b.quoteVolume
    else if a.spreadBps != b.spreadBps then a.spreadBps < b.spreadBps
    else TextLess(a.symbol, b.symbol)
  }

  /** By the ranking's own measure, then by liquidity. */
  predicate Ahead(r: Ranking, a: Eligible, b: Eligible) {
    match r
    case Liquidity => MoreLiquid(a, b)
    case Gainers => if a.change != b.change then a.change > b.change else MoreLiquid(a, b)
    case Losers => if a.change != b.change then a.change < b.change else MoreLiquid(a, b)
    case Unusual =>
      if a.trades != b.trades then a.trades > b.trades
      else if Abs(a.change) != Abs(b.change) then Abs(a.change) > Abs(b.change)
      else MoreLiquid(a, b)
  }

  lemma AheadIsBefore(r: Ranking, a: Eligible, b: Eligible)
    ensures Ahead(r, a, b) <==> Before(r, a, b)
  {
    hide TextLess, Abs;
  }

  /** A ranking rearranges the records so that no later one is ahead of an earlier one. */
  lemma RankedInFields(r: Ranking, list: seq<Eligible>)
    ensures multiset(Ranked(r, list)) == multiset(list)
    ensures forall i, j :: 0 <= i < j < |Ranked(r, list)| ==> !Ahead(r, Ranked(r, list)[j], Ranked(r, list)[i])
  {
    hide Before, Ahead, Ranked;
    RankedIsSorted(r, list);
    forall i, j | 0 <= i < j < |Ranked(r, list)| ensures !Ahead(r, Ranked(r, list)[j], Ranked(r, list)[i]) {
      AheadIsBefore(r, Ranked(r, list)[j], Ranked(r, list)[i]);
    }
  }

  /** Fifty is where the buckets begin: below it the selection is the head of the liquidity ranking. */
  lemma SelectionMode(eligible: seq<Eligible>, max: nat)
    ensures max < 50 ==> Select(eligible, max) == (var ranked := Ranked(Liquidity, eligible); if max < |ranked| then ranked[..max] else ranked)
    ensures 50 <= max ==> Select(eligible, max) == Hybrid(eligible, max)
  {
    hide Ranked, Hybrid;
  }
}
