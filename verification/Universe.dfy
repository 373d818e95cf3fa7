/** The trading universe of app/services/universe.py: classification of raw exchange rows, four rankings, and the
    hybrid bucket selection. */
module Universe {
  import opened Trading

  datatype RawRow = NotAnObject | Object(name: Option<string>, usdt: bool, perpetual: bool, trading: bool, base: Option<string>)

  datatype Ticker = Ticker(quoteVolume: Option<real>, change: Option<real>, count: Option<real>)

  datatype Book = Book(bid: Option<real>, ask: Option<real>)

  datatype Code =
    | InvalidMetadata | NonUsdt | NonPerpetual | NotTrading | MissingTicker | InvalidQuoteVolume | BelowMinimumVolume
    | MissingBook | InvalidBook | SpreadTooWide | UniverseLimit

  datatype Rejection = Rejection(symbol: string, code: Code)

  datatype Eligible = Eligible(symbol: string, quoteVolume: real, change: real, trades: real, bid: real, ask: real, spreadBps: real)

  datatype Candidate = Candidate(rank: nat, record: Eligible)

  datatype Limits = Limits(maxSymbols: nat, minQuoteVolume: real, maxSpreadBps: real)

  /** The public market data one build reads. */
  datatype Market = Market(tickers: map<string, Ticker>, books: map<string, Book>)

  // ---------------------------------------------------------------- classification of one row

  /** The placeholder for a row without a name, by its index. */
  function Unknown(index: nat): string { "<unknown:" + Digits(index) + ">" }

  function Digits(n: nat): string {
    if n < 10 then ["0123456789"[n]] else Digits(n / 10) + ["0123456789"[n % 10]]
  }

  predicate IsPlaceholder(symbol: string) { "<unknown:" <= symbol }

  function NameOf(row: RawRow, index: nat): string {
    if row.Object? && row.name.Some? && row.name.value != "" then row.name.value else Unknown(index)
  }

  function OrZero(value: Option<real>): real { if value.None? then 0.0 else value.value }

  function SpreadBps(bid: real, ask: real): real
    requires bid > 0.0 && ask > 0.0
  {
    (ask - bid) / ((bid + ask) / 2.0) * 10000.0
  }

  function Classify(symbol: string, row: RawRow, seen: set<string>, market: Market, limits: Limits): Result<Eligible, Code> {
    if row.NotAnObject? || symbol in seen || IsPlaceholder(symbol) then Err(InvalidMetadata)
    else if !row.usdt then Err(NonUsdt)
    else if !row.perpetual then Err(NonPerpetual)
    else if !row.trading then Err(NotTrading)
    else if row.base.None? || row.base.value == "" then Err(InvalidMetadata)
    else if symbol !in market.tickers then Err(MissingTicker)
    else
      var t := market.tickers[symbol];
      if t.quoteVolume.None? || t.quoteVolume.value < 0.0 then Err(InvalidQuoteVolume)
      else if t.quoteVolume.value < limits.minQuoteVolume then Err(BelowMinimumVolume)
      else if symbol !in market.books then Err(MissingBook)
      else
        var b := market.books[symbol];
        if b.bid.None? || b.ask.None? || b.bid.value <= 0.0 || b.ask.value <= 0.0 || b.ask.value < b.bid.value then Err(InvalidBook)
        else
          var spread := SpreadBps(b.bid.value, b.ask.value);
          if spread > limits.maxSpreadBps then Err(SpreadTooWide)
          else Ok(Eligible(symbol, t.quoteVolume.value, OrZero(t.change), if OrZero(t.count) < 0.0 then 0.0 else OrZero(t.count), b.bid.value, b.ask.value, spread))
  }

  /** The names already taken before row `n`; placeholders are never taken. */
  function Seen(rows: seq<RawRow>, n: nat): set<string>
    requires n <= |rows|
  {
    set i | 0 <= i < n && !IsPlaceholder(NameOf(rows[i], i)) :: NameOf(rows[i], i)
  }

  function Names(rows: seq<RawRow>): seq<string> {
    if rows == [] then [] else Names(rows[..|rows| - 1]) + [NameOf(rows[|rows| - 1], |rows| - 1)]
  }

  function Symbols(records: seq<Eligible>): set<string> { set i | 0 <= i < |records| :: records[i].symbol }

  predicate DistinctSymbols(records: seq<Eligible>) {
    forall i, j :: 0 <= i < j < |records| ==> records[i].symbol != records[j].symbol
  }

  function SymbolList(records: seq<Eligible>): seq<string> {
    if records == [] then [] else SymbolList(records[..|records| - 1]) + [records[|records| - 1].symbol]
  }

  function RejectedList(rejections: seq<Rejection>): seq<string> {
    if rejections == [] then [] else RejectedList(rejections[..|rejections| - 1]) + [rejections[|rejections| - 1].symbol]
  }

  // ---------------------------------------------------------------- rankings

  datatype Ranking = Liquidity | Gainers | Losers | Unusual

  predicate LiquidityBefore(a: Eligible, b: Eligible) {
    a.quoteVolume > b.quoteVolume
    || (a.quoteVolume == b.quoteVolume && (a.spreadBps < b.spreadBps || (a.spreadBps == b.spreadBps && TextLess(a.symbol, b.symbol))))
  }

  predicate Before(r: Ranking, a: Eligible, b: Eligible) {
    match r
    case Liquidity => LiquidityBefore(a, b)
    case Gainers => a.change > b.change || (a.change == b.change && LiquidityBefore(a, b))
    case Losers => a.change < b.change || (a.change == b.change && LiquidityBefore(a, b))
    case Unusual =>
      a.trades > b.trades
      || (a.trades == b.trades && (Abs(a.change) > Abs(b.change) || (Abs(a.change) == Abs(b.change) && LiquidityBefore(a, b))))
  }

  lemma OrderAsymmetric(r: Ranking, a: Eligible, b: Eligible)
    requires Before(r, a, b)
    ensures !Before(r, b, a)
  {
    hide TextLess;
    TextLessAsymmetric(a.symbol, b.symbol);
  }

  lemma OrderSplits(r: Ranking, a: Eligible, b: Eligible, c: Eligible)
    requires Before(r, a, c)
    ensures Before(r, a, b) || Before(r, b, c)
  {
    hide TextLess;
    if TextLess(a.symbol, c.symbol) { TextLessSplits(a.symbol, b.symbol, c.symbol); }
  }

  ghost predicate Ordered(r: Ranking, list: seq<Eligible>) {
    forall i, j :: 0 <= i < j < |list| ==> !Before(r, list[j], list[i])
  }

  function Insert(r: Ranking, list: seq<Eligible>, e: Eligible): seq<Eligible> {
    if list == [] || !Before(r, e, list[|list| - 1]) then list + [e]
    else Insert(r, list[..|list| - 1], e) + [list[|list| - 1]]
  }

  /** Python's stable sort under the ranking's key. */
  function Ranked(r: Ranking, list: seq<Eligible>): seq<Eligible> {
    if list == [] then [] else Insert(r, Ranked(r, list[..|list| - 1]), list[|list| - 1])
  }

  lemma {:induction false} InsertKeeps(r: Ranking, list: seq<Eligible>, e: Eligible)
    ensures multiset(Insert(r, list, e)) == multiset(list) + multiset{e} && |Insert(r, list, e)| == |list| + 1
  {
    hide Before;
    if list != [] && Before(r, e, list[|list| - 1]) {
      InsertKeeps(r, list[..|list| - 1], e);
      assert list == list[..|list| - 1] + [list[|list| - 1]];
    }
  }

  lemma {:induction false} InsertOrders(r: Ranking, list: seq<Eligible>, e: Eligible)
    requires Ordered(r, list)
    ensures Ordered(r, Insert(r, list, e))
  {
    hide Before;
    if list != [] {
      var init, last := list[..|list| - 1], list[|list| - 1];
      if Before(r, e, last) {
        InsertOrders(r, init, e);
        InsertKeeps(r, init, e);
        NotBeforeAny(r, init, e, last);
      } else {
        forall i | 0 <= i < |list| ensures !Before(r, e, list[i]) {
          if Before(r, e, list[i]) { OrderSplits(r, e, last, list[i]); }
        }
      }
    }
  }

  lemma NotBeforeAny(r: Ranking, init: seq<Eligible>, e: Eligible, last: Eligible)
    requires Before(r, e, last) && forall i :: 0 <= i < |init| ==> !Before(r, last, init[i])
    requires multiset(Insert(r, init, e)) == multiset(init) + multiset{e}
    ensures var placed := Insert(r, init, e); forall i :: 0 <= i < |placed| ==> !Before(r, last, placed[i])
  {
    hide Before, Insert;
    var placed := Insert(r, init, e);
    OrderAsymmetric(r, e, last);
    forall i | 0 <= i < |placed| ensures !Before(r, last, placed[i]) {
      assert placed[i] in multiset(placed);
      assert placed[i] in init || placed[i] == e;
    }
  }

  /** Ranking is a rearrangement in which nothing comes after something it should precede. */
  lemma {:induction false} RankedIsSorted(r: Ranking, list: seq<Eligible>)
    ensures Ordered(r, Ranked(r, list)) && multiset(Ranked(r, list)) == multiset(list) && |Ranked(r, list)| == |list|
  {
    hide Before;
    if list != [] {
      var init, last := list[..|list| - 1], list[|list| - 1];
      RankedIsSorted(r, init);
      InsertOrders(r, Ranked(r, init), last);
      InsertKeeps(r, Ranked(r, init), last);
      assert list == init + [last];
    }
  }

  // ---------------------------------------------------------------- bucket selection

  /** The loop of `add_unique`. */
  function AddUnique(selected: seq<Eligible>, pool: seq<Eligible>, target: int, max: nat): seq<Eligible>
    decreases |pool|
  {
    if target <= 0 || pool == [] then selected
    else if pool[0].symbol in Symbols(selected) then AddUnique(selected, pool[1..], target, max)
    else if target == 1 || |selected| + 1 >= max then selected + [pool[0]]
    else AddUnique(selected + [pool[0]], pool[1..], target - 1, max)
  }

  lemma SymbolsGrow(records: seq<Eligible>, e: Eligible)
    ensures Symbols(records + [e]) == Symbols(records) + {e.symbol}
  {
    forall x | x in Symbols(records) + {e.symbol} ensures x in Symbols(records + [e]) {
      if x == e.symbol {
        assert (records + [e])[|records|].symbol == x;
      } else {
        var i :| 0 <= i < |records| && records[i].symbol == x;
        assert (records + [e])[i].symbol == x;
      }
    }
  }

  lemma MemberSymbol(records: seq<Eligible>, e: Eligible)
    requires e in records
    ensures e.symbol in Symbols(records)
  {
    var i :| 0 <= i < |records| && records[i] == e;
    assert records[i].symbol == e.symbol;
  }

  /** A bucket only appends, keeps symbols distinct, takes from its pool, and stops short of its target only when the
      pool is exhausted or the universe is full. */
  lemma {:induction false} AddUniqueLaws(selected: seq<Eligible>, pool: seq<Eligible>, target: int, max: nat)
    requires DistinctSymbols(selected) && |selected| + target <= max
    ensures var r := AddUnique(selected, pool, target, max);
      && selected <= r && DistinctSymbols(r)
      && (forall e :: e in r ==> e in selected || e in pool)
      && (|r| < |selected| + target ==> forall e :: e in pool ==> e.symbol in Symbols(r))
      && (target >= 0 ==> |r| <= |selected| + target)
    decreases |pool|
  {
    if target > 0 && pool != [] {
      if pool[0].symbol in Symbols(selected) {
        AddUniqueLaws(selected, pool[1..], target, max);
        var r := AddUnique(selected, pool, target, max);
        KeepsSymbols(selected, r);
      } else {
        SymbolsGrow(selected, pool[0]);
        var grown := selected + [pool[0]];
        forall i | 0 <= i < |selected| ensures selected[i].symbol != pool[0].symbol {
          MemberSymbol(selected, selected[i]);
        }
        if target > 1 && |selected| + 1 < max {
          AddUniqueLaws(grown, pool[1..], target - 1, max);
          KeepsSymbols(grown, AddUnique(selected, pool, target, max));
        }
      }
    }
  }

  lemma KeepsSymbols(before: seq<Eligible>, after: seq<Eligible>)
    requires before <= after
    ensures Symbols(before) <= Symbols(after)
  {
    forall x | x in Symbols(before) ensures x in Symbols(after) {
      var i :| 0 <= i < |before| && before[i].symbol == x;
      assert after[i].symbol == x;
    }
  }

  /** A bucket that finds none of its pool taken takes the head of the pool. */
  lemma {:induction false} FreshBucketIsPrefix(selected: seq<Eligible>, pool: seq<Eligible>, target: nat, max: nat)
    requires DistinctSymbols(pool) && |selected| + target <= max
    requires forall i :: 0 <= i < |pool| ==> pool[i].symbol !in Symbols(selected)
    ensures AddUnique(selected, pool, target, max) == selected + pool[..if target < |pool| then target else |pool|]
    decreases |pool|
  {
    if target > 0 && pool != [] {
      SymbolsGrow(selected, pool[0]);
      var grown := selected + [pool[0]];
      if target > 1 && |selected| + 1 < max {
        FreshBucketIsPrefix(grown, pool[1..], target - 1, max);
        var n := if target < |pool| then target else |pool|;
        assert selected + pool[..n] == grown + pool[1..][..n - 1];
      }
    }
  }

  /** Those whose price moved up, or down. */
  function Moved(list: seq<Eligible>, up: bool): seq<Eligible> {
    if list == [] then []
    else
      var rest, last := Moved(list[..|list| - 1], up), list[|list| - 1];
      if (if up then last.change > 0.0 else last.change < 0.0) then rest + [last] else rest
  }

  lemma {:induction false} MovedAreMembers(list: seq<Eligible>, up: bool)
    ensures forall e :: e in Moved(list, up) ==> e in list
  {
    if list != [] { MovedAreMembers(list[..|list| - 1], up); }
  }

  function Capped(list: seq<Eligible>, max: nat): seq<Eligible> { if max < |list| then list[..max] else list }

  /** Ten most liquid, fifteen gainers, fifteen losers, ten unusually active, then the most liquid of the rest. */
  function Hybrid(eligible: seq<Eligible>, max: nat): seq<Eligible> {
    var liquid := Ranked(Liquidity, eligible);
    var core := AddUnique([], liquid, 10, max);
    var withGainers := AddUnique(core, Ranked(Gainers, Moved(eligible, true)), 15, max);
    var withLosers := AddUnique(withGainers, Ranked(Losers, Moved(eligible, false)), 15, max);
    var withUnusual := AddUnique(withLosers, Ranked(Unusual, eligible), 10, max);
    AddUnique(withUnusual, liquid, max - |withUnusual|, max)
  }

  function Select(eligible: seq<Eligible>, max: nat): seq<Eligible> {
    if max >= 50 then Hybrid(eligible, max) else Capped(Ranked(Liquidity, eligible), max)
  }

  lemma {:induction false} SymbolCount(records: seq<Eligible>)
    requires DistinctSymbols(records)
    ensures |Symbols(records)| == |records|
    ensures multiset(SymbolList(records)) == multiset(Symbols(records))
  {
    hide DistinctSymbols, Symbols;
    if records == [] {
      EmptySelection();
    } else {
      var init, last := records[..|records| - 1], records[|records| - 1];
      DistinctPrefix(records);
      SymbolCount(init);
      NextSymbolIsNew(records, |records| - 1);
      assert records[..|records|] == records;
      AddedOnce(Symbols(init), last.symbol);
    }
  }

  lemma SymbolsWithin(small: seq<Eligible>, large: seq<Eligible>)
    requires forall e :: e in small ==> e in large
    ensures Symbols(small) <= Symbols(large)
  {
    forall x | x in Symbols(small) ensures x in Symbols(large) {
      var i :| 0 <= i < |small| && small[i].symbol == x;
      MemberSymbol(large, small[i]);
    }
  }

  lemma SmallerSet(small: set<string>, large: set<string>)
    requires small <= large
    ensures |small| <= |large|
  {
    assert large == small + (large - small);
  }

  lemma RankedMembers(r: Ranking, list: seq<Eligible>)
    ensures forall e :: e in Ranked(r, list) <==> e in list
    ensures DistinctSymbols(list) ==> DistinctSymbols(Ranked(r, list))
  {
    RankedIsSorted(r, list);
    var ranked := Ranked(r, list);
    forall e ensures e in ranked <==> e in list {
      assert e in multiset(ranked) <==> e in multiset(list);
    }
    if DistinctSymbols(list) { RearrangedStaysDistinct(list, ranked); }
  }

  /** Distinctness counts symbols, so it survives rearranging. */
  lemma RearrangedStaysDistinct(list: seq<Eligible>, other: seq<Eligible>)
    requires DistinctSymbols(list) && multiset(list) == multiset(other)
    ensures DistinctSymbols(other)
  {
    forall i, j | 0 <= i < j < |other| ensures other[i].symbol != other[j].symbol {
      if other[i].symbol == other[j].symbol {
        assert other[i] in multiset(list) && other[j] in multiset(list);
        var m :| 0 <= m < |list| && list[m] == other[i];
        var n :| 0 <= n < |list| && list[n] == other[j];
        assert m == n;
        TwiceInSequence(other, i, j);
        Once(list, other[i]);
      }
    }
  }

  lemma {:induction false} Once(list: seq<Eligible>, e: Eligible)
    requires DistinctSymbols(list)
    ensures multiset(list)[e] <= 1
  {
    if list != [] {
      Once(list[..|list| - 1], e);
      assert list == list[..|list| - 1] + [list[|list| - 1]];
      if list[|list| - 1] == e { assert e !in list[..|list| - 1]; }
    }
  }

  /** The hybrid rule: distinct symbols, all eligible, exactly as many as fit, and the ten most liquid among them. */
  lemma HybridLaws(eligible: seq<Eligible>, max: nat)
    requires DistinctSymbols(eligible) && max >= 50
    ensures var selected, liquid := Hybrid(eligible, max), Ranked(Liquidity, eligible);
      && DistinctSymbols(selected) && (forall e :: e in selected ==> e in eligible)
      && |selected| == (if max < |eligible| then max else |eligible|)
      && Capped(liquid, 10) <= selected
  {
    hide Ranked, AddUnique, Moved, DistinctSymbols, Symbols;
    var liquid := Ranked(Liquidity, eligible);
    RankedMembers(Liquidity, eligible);
    RankedMembers(Gainers, Moved(eligible, true));
    RankedMembers(Losers, Moved(eligible, false));
    RankedMembers(Unusual, eligible);
    MovedAreMembers(eligible, true);
    MovedAreMembers(eligible, false);
    EmptySelection();
    var core := AddUnique([], liquid, 10, max);
    AddUniqueLaws([], liquid, 10, max);
    FreshBucketIsPrefix([], liquid, 10, max);
    var withGainers := AddUnique(core, Ranked(Gainers, Moved(eligible, true)), 15, max);
    AddUniqueLaws(core, Ranked(Gainers, Moved(eligible, true)), 15, max);
    var withLosers := AddUnique(withGainers, Ranked(Losers, Moved(eligible, false)), 15, max);
    AddUniqueLaws(withGainers, Ranked(Losers, Moved(eligible, false)), 15, max);
    var withUnusual := AddUnique(withLosers, Ranked(Unusual, eligible), 10, max);
    AddUniqueLaws(withLosers, Ranked(Unusual, eligible), 10, max);
    AddUniqueLaws(withUnusual, liquid, max - |withUnusual|, max);
    FilledSize(eligible, liquid, AddUnique(withUnusual, liquid, max - |withUnusual|, max), max);
  }

  lemma EmptySelection()
    ensures DistinctSymbols([]) && Symbols([]) == {}
  {
  }

  lemma FilledSize(eligible: seq<Eligible>, liquid: seq<Eligible>, selected: seq<Eligible>, max: nat)
    requires DistinctSymbols(eligible) && DistinctSymbols(selected) && |selected| <= max
    requires forall e :: e in selected ==> e in eligible
    requires forall e :: e in liquid <==> e in eligible
    requires |selected| < max ==> forall e :: e in liquid ==> e.symbol in Symbols(selected)
    ensures |selected| == if max < |eligible| then max else |eligible|
  {
    SymbolCount(eligible);
    SymbolCount(selected);
    SymbolsWithin(selected, eligible);
    SmallerSet(Symbols(selected), Symbols(eligible));
    if |selected| < max {
      forall x | x in Symbols(eligible) ensures x in Symbols(selected) {
        var i :| 0 <= i < |eligible| && eligible[i].symbol == x;
        assert eligible[i] in liquid;
      }
      SmallerSet(Symbols(eligible), Symbols(selected));
    }
  }

  /** A bucket takes the best of its pool: whoever of the pool is still unselected afterwards meets a full bucket, and
      ranks before nobody in it. */
  lemma {:induction false} BucketTakesTheBest(r: Ranking, selected: seq<Eligible>, pool: seq<Eligible>, target: nat, max: nat, e: Eligible)
    requires DistinctSymbols(selected) && |selected| + target <= max && Ordered(r, pool)
    requires e in pool && e.symbol !in Symbols(AddUnique(selected, pool, target, max))
    ensures var after := AddUnique(selected, pool, target, max);
      && selected <= after && |after| == |selected| + target
      && forall i :: |selected| <= i < |after| ==> after[i] in pool && !Before(r, e, after[i])
    decreases |pool|
  {
    hide Before;
    if target > 0 {
      var after := AddUnique(selected, pool, target, max);
      if pool[0].symbol in Symbols(selected) {
        AddUniqueLaws(selected, pool[1..], target, max);
        KeepsSymbols(selected, after);
        BucketTakesTheBest(r, selected, pool[1..], target, max, e);
      } else {
        SymbolsGrow(selected, pool[0]);
        var grown := selected + [pool[0]];
        forall i | 0 <= i < |selected| ensures selected[i].symbol != pool[0].symbol {
          MemberSymbol(selected, selected[i]);
        }
        if target > 1 { AddUniqueLaws(grown, pool[1..], target - 1, max); }
        KeepsSymbols(grown, after);
        FirstIsBest(r, pool, e);
        if target > 1 {
          BucketTakesTheBest(r, grown, pool[1..], target - 1, max, e);
        }
      }
    }
  }

  lemma FirstIsBest(r: Ranking, pool: seq<Eligible>, e: Eligible)
    requires Ordered(r, pool) && e in pool && e.symbol != pool[0].symbol
    ensures !Before(r, e, pool[0])
    ensures e in pool[1..] && Ordered(r, pool[1..])
  {
    hide Before;
    var i :| 0 <= i < |pool| && pool[i] == e;
    assert pool[1..][i - 1] == e;
  }

  /** A stretch of `size` selected records, all of the kind, none of which `e` should precede. */
  ghost predicate OutrankedBy(r: Ranking, selected: seq<Eligible>, from: nat, size: nat, e: Eligible) {
    && from + size <= |selected|
    && (forall i :: from <= i < from + size ==> !Before(r, e, selected[i]))
    && (r == Gainers ==> forall i :: from <= i < from + size ==> selected[i].change > 0.0)
    && (r == Losers ==> forall i :: from <= i < from + size ==> selected[i].change < 0.0)
  }

  lemma {:induction false} MovedAreMovers(list: seq<Eligible>, up: bool, e: Eligible)
    ensures e in Moved(list, up) <==> e in list && (if up then e.change > 0.0 else e.change < 0.0)
  {
    if list != [] { MovedAreMovers(list[..|list| - 1], up, e); }
  }

  lemma LongerKeepsOutranked(r: Ranking, shorter: seq<Eligible>, longer: seq<Eligible>, from: nat, size: nat, e: Eligible)
    requires shorter <= longer && OutrankedBy(r, shorter, from, size, e)
    ensures OutrankedBy(r, longer, from, size, e)
  {
    hide Before;
  }

  /** One bucket of the hybrid rule, seen from a record the whole selection leaves out. */
  lemma BucketOutranks(r: Ranking, selected: seq<Eligible>, kind: seq<Eligible>, target: nat, max: nat, all: seq<Eligible>, e: Eligible)
    requires DistinctSymbols(selected) && |selected| + target <= max && e in kind
    requires AddUnique(selected, Ranked(r, kind), target, max) <= all && e.symbol !in Symbols(all)
    requires r == Gainers ==> forall x :: x in kind ==> x.change > 0.0
    requires r == Losers ==> forall x :: x in kind ==> x.change < 0.0
    ensures OutrankedBy(r, all, |selected|, target, e)
  {
    hide Before, Ranked, AddUnique, Symbols, DistinctSymbols;
    RankedIsSorted(r, kind);
    RankedMembers(r, kind);
    var after := AddUnique(selected, Ranked(r, kind), target, max);
    KeepsSymbols(after, all);
    BucketTakesTheBest(r, selected, Ranked(r, kind), target, max, e);
    forall i | |selected| <= i < |after| ensures after[i] in kind {
      assert after[i] in Ranked(r, kind);
    }
    LongerKeepsOutranked(r, after, all, |selected|, target, e);
  }

  /** Every eligible symbol the hybrid rule leaves out is outranked in every bucket it competes in: by ten more liquid,
      ten more active and, if its price moved, by fifteen stronger gainers or losers, all of them selected. */
  lemma LeftOutMeansOutranked(eligible: seq<Eligible>, max: nat, e: Eligible)
    requires DistinctSymbols(eligible) && max >= 50 && e in eligible && e.symbol !in Symbols(Hybrid(eligible, max))
    ensures var selected := Hybrid(eligible, max);
      && OutrankedBy(Liquidity, selected, 0, 10, e)
      && (e.change > 0.0 ==> OutrankedBy(Gainers, selected, 10, 15, e))
      && (e.change < 0.0 ==> exists from :: OutrankedBy(Losers, selected, from, 15, e))
      && (exists from :: OutrankedBy(Unusual, selected, from, 10, e))
  {
    hide Ranked, AddUnique, Moved, DistinctSymbols, Symbols, OutrankedBy;
    var liquid := Ranked(Liquidity, eligible);
    EmptySelection();
    var core := AddUnique([], liquid, 10, max);
    AddUniqueLaws([], liquid, 10, max);
    var withGainers := AddUnique(core, Ranked(Gainers, Moved(eligible, true)), 15, max);
    AddUniqueLaws(core, Ranked(Gainers, Moved(eligible, true)), 15, max);
    var withLosers := AddUnique(withGainers, Ranked(Losers, Moved(eligible, false)), 15, max);
    AddUniqueLaws(withGainers, Ranked(Losers, Moved(eligible, false)), 15, max);
    var withUnusual := AddUnique(withLosers, Ranked(Unusual, eligible), 10, max);
    AddUniqueLaws(withLosers, Ranked(Unusual, eligible), 10, max);
    AddUniqueLaws(withUnusual, liquid, max - |withUnusual|, max);
    var all := Hybrid(eligible, max);
    BucketOutranks(Liquidity, [], eligible, 10, max, all, e);
    CoreIsFull(all, e, core, liquid, max, eligible);
    forall x ensures x in Moved(eligible, true) <==> x in eligible && x.change > 0.0 { MovedAreMovers(eligible, true, x); }
    forall x ensures x in Moved(eligible, false) <==> x in eligible && x.change < 0.0 { MovedAreMovers(eligible, false, x); }
    if e.change > 0.0 { BucketOutranks(Gainers, core, Moved(eligible, true), 15, max, all, e); }
    if e.change < 0.0 { BucketOutranks(Losers, withGainers, Moved(eligible, false), 15, max, all, e); }
    BucketOutranks(Unusual, withLosers, eligible, 10, max, all, e);
  }

  lemma CoreIsFull(all: seq<Eligible>, e: Eligible, core: seq<Eligible>, liquid: seq<Eligible>, max: nat, eligible: seq<Eligible>)
    requires liquid == Ranked(Liquidity, eligible) && core == AddUnique([], liquid, 10, max) && core <= all
    requires e in eligible && e.symbol !in Symbols(all) && max >= 50
    ensures |core| == 10
  {
    hide Ranked, AddUnique, Before;
    EmptySelection();
    RankedIsSorted(Liquidity, eligible);
    RankedMembers(Liquidity, eligible);
    KeepsSymbols(core, all);
    BucketTakesTheBest(Liquidity, [], liquid, 10, max, e);
  }

  /** Both selection rules: distinct eligible symbols, min(limit, eligible) of them, and every one of the ten most
      liquid that the limit has room for. */
  lemma SelectionLaws(eligible: seq<Eligible>, max: nat)
    requires DistinctSymbols(eligible)
    ensures var selected, liquid := Select(eligible, max), Ranked(Liquidity, eligible);
      && DistinctSymbols(selected) && (forall e :: e in selected ==> e in eligible)
      && |selected| == (if max < |eligible| then max else |eligible|)
      && Capped(liquid, if max < 10 then max else 10) <= selected
  {
    hide Ranked, Hybrid;
    RankedMembers(Liquidity, eligible);
    RankedIsSorted(Liquidity, eligible);
    if max >= 50 { HybridLaws(eligible, max); }
  }

  // ---------------------------------------------------------------- the build

  /** Eligible records and rejections of the rows in order, with the names taken. */
  function Classified(rows: seq<RawRow>, market: Market, limits: Limits): (seq<Eligible>, seq<Rejection>, set<string>) {
    if rows == [] then ([], [], {})
    else
      var n := |rows| - 1;
      var (eligible, rejections, seen) := Classified(rows[..n], market, limits);
      var symbol := NameOf(rows[n], n);
      var taken := if IsPlaceholder(symbol) then seen else seen + {symbol};
      match Classify(symbol, rows[n], seen, market, limits)
      case Ok(record) => (eligible + [record], rejections, taken)
      case Err(code) => (eligible, rejections + [Rejection(symbol, code)], taken)
  }

  /** Everything ranked but not chosen, rejected for the limit. */
  function Overflow(ranked: seq<Eligible>, chosen: set<string>): seq<Rejection> {
    if ranked == [] then []
    else
      var rest, last := Overflow(ranked[..|ranked| - 1], chosen), ranked[|ranked| - 1];
      if last.symbol in chosen then rest else rest + [Rejection(last.symbol, UniverseLimit)]
  }

  /** What every candidate satisfies. */
  predicate Admissible(e: Eligible, market: Market, limits: Limits) {
    && e.symbol in market.tickers && e.symbol in market.books && !IsPlaceholder(e.symbol)
    && e.quoteVolume >= limits.minQuoteVolume && e.quoteVolume >= 0.0 && e.trades >= 0.0
    && 0.0 < e.bid <= e.ask && e.spreadBps == SpreadBps(e.bid, e.ask) && e.spreadBps <= limits.maxSpreadBps
  }

  lemma ClassifyLaws(symbol: string, row: RawRow, seen: set<string>, market: Market, limits: Limits)
    ensures var r := Classify(symbol, row, seen, market, limits);
      r.Ok? ==> r.value.symbol == symbol && symbol !in seen && !IsPlaceholder(symbol) && Admissible(r.value, market, limits)
  {
    hide SpreadBps;
  }

  lemma {:induction false} EligibleAreDistinct(rows: seq<RawRow>, market: Market, limits: Limits)
    ensures var (eligible, rejections, seen) := Classified(rows, market, limits);
      && DistinctSymbols(eligible) && Symbols(eligible) <= seen && |eligible| + |rejections| == |rows|
      && forall e :: e in eligible ==> Admissible(e, market, limits)
  {
    hide Classify, NameOf, IsPlaceholder, Admissible;
    if rows != [] {
      var n := |rows| - 1;
      EligibleAreDistinct(rows[..n], market, limits);
      var (eligible, rejections, seen) := Classified(rows[..n], market, limits);
      var symbol := NameOf(rows[n], n);
      ClassifyLaws(symbol, rows[n], seen, market, limits);
      var outcome := Classify(symbol, rows[n], seen, market, limits);
      if outcome.Ok? {
        SymbolsGrow(eligible, outcome.value);
        forall j | 0 <= j < |eligible| ensures eligible[j].symbol != symbol {
          MemberSymbol(eligible, eligible[j]);
        }
      }
    }
  }

  /** Classification conserves names: each row's name ends on exactly one of the two lists. */
  lemma {:induction false} ClassificationConserves(rows: seq<RawRow>, market: Market, limits: Limits)
    ensures var (eligible, rejections, _) := Classified(rows, market, limits);
      multiset(SymbolList(eligible)) + multiset(RejectedList(rejections)) == multiset(Names(rows))
  {
    hide Classify, NameOf, IsPlaceholder, Admissible, SymbolList, RejectedList, Names;
    if rows == [] {
      EmptyLists();
    } else {
      var n := |rows| - 1;
      ClassificationConserves(rows[..n], market, limits);
      var (eligible, rejections, seen) := Classified(rows[..n], market, limits);
      var symbol := NameOf(rows[n], n);
      ClassifyLaws(symbol, rows[n], seen, market, limits);
      NamesGrow(rows);
      var outcome := Classify(symbol, rows[n], seen, market, limits);
      match outcome
      case Ok(record) =>
        SymbolListGrows(eligible, record);
        OneMoreOnTheLeft(SymbolList(eligible), RejectedList(rejections), Names(rows[..n]), symbol);
      case Err(code) =>
        RejectedListGrows(rejections, Rejection(symbol, code));
        OneMoreOnTheLeft(RejectedList(rejections), SymbolList(eligible), Names(rows[..n]), symbol);
    }
  }

  lemma EmptyLists()
    ensures SymbolList([]) == [] && RejectedList([]) == [] && Names([]) == []
  {
  }

  lemma NamesGrow(rows: seq<RawRow>)
    requires rows != []
    ensures Names(rows) == Names(rows[..|rows| - 1]) + [NameOf(rows[|rows| - 1], |rows| - 1)]
  {
  }

  lemma SymbolListGrows(records: seq<Eligible>, e: Eligible)
    ensures SymbolList(records + [e]) == SymbolList(records) + [e.symbol]
  {
    assert (records + [e])[..|records|] == records;
  }

  lemma RejectedListGrows(rejections: seq<Rejection>, r: Rejection)
    ensures RejectedList(rejections + [r]) == RejectedList(rejections) + [r.symbol]
  {
    assert (rejections + [r])[..|rejections|] == rejections;
  }

  lemma OneMoreOnTheLeft(left: seq<string>, right: seq<string>, whole: seq<string>, name: string)
    requires multiset(left) + multiset(right) == multiset(whole)
    ensures multiset(left + [name]) + multiset(right) == multiset(whole + [name])
  {
  }

  lemma {:induction false} OverflowLaws(ranked: seq<Eligible>, chosen: set<string>)
    requires DistinctSymbols(ranked)
    ensures multiset(RejectedList(Overflow(ranked, chosen))) == multiset(Symbols(ranked) - chosen)
    ensures |Overflow(ranked, chosen)| == |Symbols(ranked) - chosen|
  {
    hide DistinctSymbols;
    if ranked != [] {
      var init, last := ranked[..|ranked| - 1], ranked[|ranked| - 1];
      assert DistinctSymbols(init) by { DistinctPrefix(ranked); }
      OverflowLaws(init, chosen);
      NextSymbolIsNew(ranked, |ranked| - 1);
      assert ranked[..|ranked|] == ranked;
      var before := Overflow(init, chosen);
      hide Symbols;
      if last.symbol in chosen {
        assert Symbols(ranked) - chosen == Symbols(init) - chosen;
      } else {
        var open := Symbols(init) - chosen;
        assert Symbols(ranked) - chosen == open + {last.symbol};
        AddedOnce(open, last.symbol);
        var grown := before + [Rejection(last.symbol, UniverseLimit)];
        assert grown[..|grown| - 1] == before;
        assert RejectedList(grown) == RejectedList(before) + [last.symbol];
      }
    }
  }

  lemma AddedOnce(symbols: set<string>, symbol: string)
    requires symbol !in symbols
    ensures multiset(symbols + {symbol}) == multiset(symbols) + multiset{symbol}
  {
  }

  lemma DistinctPrefix(records: seq<Eligible>)
    requires records != [] && DistinctSymbols(records)
    ensures DistinctSymbols(records[..|records| - 1])
  {
  }

  lemma NextSymbolIsNew(list: seq<Eligible>, i: nat)
    requires i < |list| && DistinctSymbols(list)
    ensures Symbols(list[..i + 1]) == Symbols(list[..i]) + {list[i].symbol} && list[i].symbol !in Symbols(list[..i])
  {
    SymbolsGrow(list[..i], list[i]);
    assert list[..i + 1] == list[..i] + [list[i]];
  }

  lemma SplitSet(all: set<string>, some: set<string>)
    requires some <= all
    ensures multiset(all) == multiset(some) + multiset(all - some)
    ensures |all| == |some| + |all - some|
  {
    assert all == some + (all - some);
  }

  /** Selection and overflow together are all the eligible. */
  lemma SelectionConserves(eligible: seq<Eligible>, max: nat)
    requires DistinctSymbols(eligible)
    ensures var selected := Select(eligible, max); var overflow := Overflow(Ranked(Liquidity, eligible), Symbols(selected));
      && multiset(SymbolList(selected)) + multiset(RejectedList(overflow)) == multiset(SymbolList(eligible))
      && |selected| + |overflow| == |eligible|
  {
    hide Ranked, Select, DistinctSymbols, Symbols, SymbolList, RejectedList, Overflow;
    var selected, liquid := Select(eligible, max), Ranked(Liquidity, eligible);
    SelectionLaws(eligible, max);
    RankedMembers(Liquidity, eligible);
    OverflowLaws(liquid, Symbols(selected));
    SymbolCount(selected);
    SymbolCount(eligible);
    SymbolsWithin(selected, eligible);
    SymbolsWithin(liquid, eligible);
    SymbolsWithin(eligible, liquid);
    assert Symbols(liquid) == Symbols(eligible);
    SplitSet(Symbols(eligible), Symbols(selected));
  }

  function Records(candidates: seq<Candidate>): (records: seq<Eligible>)
    ensures |records| == |candidates|
    ensures forall i :: 0 <= i < |records| ==> records[i] == candidates[i].record
  {
    seq(|candidates|, i requires 0 <= i < |candidates| => candidates[i].record)
  }

  /** A snapshot accounts for every raw row exactly once. */
  ghost predicate Accounted(rows: seq<RawRow>, candidates: seq<Candidate>, rejections: seq<Rejection>) {
    && |candidates| + |rejections| == |rows|
    && multiset(SymbolList(Records(candidates))) + multiset(RejectedList(rejections)) == multiset(Names(rows))
  }

  class UniverseService {
    const limits: Limits

    constructor (configured: Limits)
      ensures limits == configured
    {
      limits := configured;
    }

    /** The classification loop. */
    method ClassifyAll(rows: seq<RawRow>, market: Market) returns (eligible: seq<Eligible>, rejections: seq<Rejection>)
      ensures (eligible, rejections) == (Classified(rows, market, limits).0, Classified(rows, market, limits).1)
    {
      hide Classify, NameOf, IsPlaceholder;
      eligible, rejections := [], [];
      var seen: set<string> := {};
      for i := 0 to |rows|
        invariant (eligible, rejections, seen) == Classified(rows[..i], market, limits)
      {
        var symbol := NameOf(rows[i], i);
        var outcome := Classify(symbol, rows[i], seen, market, limits);
        assert rows[..i + 1][..i] == rows[..i];
        match outcome {
          case Ok(record) => eligible := eligible + [record];
          case Err(code) => rejections := rejections + [Rejection(symbol, code)];
        }
        if !IsPlaceholder(symbol) { seen := seen + {symbol}; }
      }
      assert rows[..|rows|] == rows;
    }

    /** `build` without its cache: every raw row ends as exactly one candidate or one rejection. */
    method Build(rows: seq<RawRow>, market: Market) returns (candidates: seq<Candidate>, rejections: seq<Rejection>)
      ensures Accounted(rows, candidates, rejections)
      ensures Records(candidates) == Select(Classified(rows, market, limits).0, limits.maxSymbols)
      ensures forall i :: 0 <= i < |candidates| ==> candidates[i].rank == i + 1 && Admissible(candidates[i].record, market, limits)
      ensures DistinctSymbols(Records(candidates)) && |candidates| <= limits.maxSymbols
    {
      hide Admissible, Select, Ranked, DistinctSymbols, Symbols, SymbolList, RejectedList, Overflow, Classified, Names;
      var eligible, refused := ClassifyAll(rows, market);
      EligibleAreDistinct(rows, market, limits);
      ClassificationConserves(rows, market, limits);
      var selected := Select(eligible, limits.maxSymbols);
      SelectionLaws(eligible, limits.maxSymbols);
      SelectionConserves(eligible, limits.maxSymbols);
      var overflow := RejectOverflow(Ranked(Liquidity, eligible), Symbols(selected));
      rejections := refused + overflow;
      RejectedListJoins(refused, overflow);
      candidates := [];
      for i := 0 to |selected|
        invariant |candidates| == i
        invariant forall j :: 0 <= j < i ==> candidates[j] == Candidate(j + 1, selected[j])
      {
        candidates := candidates + [Candidate(i + 1, selected[i])];
      }
      assert Records(candidates) == selected;
    }

    method RejectOverflow(ranked: seq<Eligible>, chosen: set<string>) returns (overflow: seq<Rejection>)
      ensures overflow == Overflow(ranked, chosen)
    {
      overflow := [];
      for i := 0 to |ranked|
        invariant overflow == Overflow(ranked[..i], chosen)
      {
        assert ranked[..i + 1][..i] == ranked[..i];
        if ranked[i].symbol !in chosen { overflow := overflow + [Rejection(ranked[i].symbol, UniverseLimit)]; }
      }
      assert ranked[..|ranked|] == ranked;
    }
  }

  lemma {:induction false} RejectedListJoins(a: seq<Rejection>, b: seq<Rejection>)
    ensures RejectedList(a + b) == RejectedList(a) + RejectedList(b)
  {
    if b == [] {
      assert a + b == a;
    } else {
      RejectedListJoins(a, b[..|b| - 1]);
      assert (a + b)[..|a + b| - 1] == a + b[..|b| - 1];
    }
  }
}
