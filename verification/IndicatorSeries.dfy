/** The rest of app/services/indicators.py: true ranges, MACD over a sparse EMA, market structure and the assembled
    points, and what the reflection of candles does to each of them. */
module IndicatorSeries {
  import opened Trading
  import opened Strategy
  import opened StrategySymmetry
  import opened Indicators

  // ---------------------------------------------------------------- true range

  function TrueRangeAt(bars: seq<Bar>, index: nat): real
    requires index < |bars|
  {
    var c := bars[index].candle;
    if index == 0 then c.high - c.low
    else
      var previous := bars[index - 1].candle.close;
      Max(c.high - c.low, Max(Abs(c.high - previous), Abs(c.low - previous)))
  }

  method TrueRanges(bars: seq<Bar>) returns (result: seq<real>)
    ensures result == TrueRangesOf(bars)
  {
    if bars == [] { return []; }
    result := [bars[0].candle.high - bars[0].candle.low];
    for index := 1 to |bars|
      invariant |result| == index
      invariant forall i :: 0 <= i < index ==> result[i] == TrueRangeAt(bars, i)
    {
      var c, previous := bars[index].candle, bars[index - 1].candle.close;
      result := result + [Max(c.high - c.low, Max(Abs(c.high - previous), Abs(c.low - previous)))];
    }
  }

  function TrueRangesOf(bars: seq<Bar>): (r: seq<real>)
    ensures |r| == |bars|
    ensures forall i :: 0 <= i < |r| ==> r[i] == TrueRangeAt(bars, i)
  {
    seq(|bars|, i requires 0 <= i < |bars| => TrueRangeAt(bars, i))
  }

  // ---------------------------------------------------------------- EMA of a series with gaps

  /** The values that are present, in order. */
  function Dense(values: seq<Option<real>>): seq<real> {
    if values == [] then []
    else
      var rest := Dense(values[..|values| - 1]);
      if values[|values| - 1].None? then rest else rest + [values[|values| - 1].value]
  }

  /** How many values are present before `index`. */
  function Rank(values: seq<Option<real>>, index: nat): nat
    requires index <= |values|
  {
    |Dense(values[..index])|
  }

  lemma {:induction false} DenseAt(values: seq<Option<real>>, index: nat)
    requires index < |values| && values[index].Some?
    ensures Rank(values, index) < |Dense(values)| && Dense(values)[Rank(values, index)] == values[index].value
  {
    var init := values[..|values| - 1];
    if index < |values| - 1 {
      DenseAt(init, index);
      assert init[..index] == values[..index];
    }
  }

  /** The EMA of the present values, put back in their places. */
  function SparseAt(values: seq<Option<real>>, period: nat, index: nat): Option<real>
    requires 0 < period && index < |values|
  {
    if values[index].None? then None
    else
      DenseAt(values, index);
      EmaAt(Dense(values), period, Rank(values, index))
  }

  /** The positions of the present values and the values themselves. */
  method Compact(values: seq<Option<real>>) returns (indexes: seq<nat>, dense: seq<real>)
    ensures dense == Dense(values) && |indexes| == |dense|
    ensures forall j :: 0 <= j < |indexes| ==> indexes[j] < |values| && values[indexes[j]].Some? && Rank(values, indexes[j]) == j
    ensures forall n :: 0 <= n < |values| && values[n].Some? ==> Rank(values, n) < |indexes| && indexes[Rank(values, n)] == n
  {
    indexes, dense := [], [];
    for i := 0 to |values|
      invariant dense == Dense(values[..i]) && |indexes| == |dense|
      invariant forall j :: 0 <= j < |indexes| ==> indexes[j] < i && values[indexes[j]].Some? && Rank(values, indexes[j]) == j
      invariant forall n :: 0 <= n < i && values[n].Some? ==> Rank(values, n) < |indexes| && indexes[Rank(values, n)] == n
    {
      assert values[..i + 1][..i] == values[..i];
      if values[i].Some? {
        indexes, dense := indexes + [i], dense + [values[i].value];
      }
    }
    assert values[..|values|] == values;
  }

  method EmaSparse(values: seq<Option<real>>, period: nat) returns (result: seq<Option<real>>)
    requires 0 < period
    ensures |result| == |values|
    ensures forall i :: 0 <= i < |values| ==> result[i] == SparseAt(values, period, i)
  {
    hide EmaAt, Dense, Rank;
    var indexes, dense := Compact(values);
    var denseEma := Ema(dense, period);
    result := seq(|values|, _ => None);
    for j := 0 to |indexes|
      invariant |result| == |values|
      invariant forall n :: 0 <= n < |values| ==>
        result[n] == if values[n].Some? && Rank(values, n) < j then SparseAt(values, period, n) else None
    {
      DenseAt(values, indexes[j]);
      result := result[indexes[j] := denseEma[j]];
    }
  }

  // ---------------------------------------------------------------- MACD

  function Closes(bars: seq<Bar>): (r: seq<real>)
    ensures |r| == |bars|
    ensures forall i :: 0 <= i < |r| ==> r[i] == bars[i].candle.close
  {
    seq(|bars|, i requires 0 <= i < |bars| => bars[i].candle.close)
  }

  function Volumes(bars: seq<Bar>): (r: seq<real>)
    ensures |r| == |bars|
    ensures forall i :: 0 <= i < |r| ==> r[i] == bars[i].volume
  {
    seq(|bars|, i requires 0 <= i < |bars| => bars[i].volume)
  }

  function Minus(x: Option<real>, y: Option<real>): Option<real> {
    if x.Some? && y.Some? then Some(x.value - y.value) else None
  }

  function MacdAt(closes: seq<real>, index: nat): Option<real>
    requires index < |closes|
  {
    Minus(EmaAt(closes, 12, index), EmaAt(closes, 26, index))
  }

  function MacdOf(closes: seq<real>): (r: seq<Option<real>>)
    ensures |r| == |closes|
    ensures forall i :: 0 <= i < |r| ==> r[i] == MacdAt(closes, i)
  {
    seq(|closes|, i requires 0 <= i < |closes| => MacdAt(closes, i))
  }

  // ---------------------------------------------------------------- volume-weighted average price

  function Typical(c: Candle): real { (c.high + c.low + c.close) / 3.0 }

  function Traded(bars: seq<Bar>): real {
    if bars == [] then 0.0 else Traded(bars[..|bars| - 1]) + Typical(bars[|bars| - 1].candle) * bars[|bars| - 1].volume
  }

  function VolumeOf(bars: seq<Bar>): real {
    if bars == [] then 0.0 else VolumeOf(bars[..|bars| - 1]) + bars[|bars| - 1].volume
  }

  function VwapAt(bars: seq<Bar>, index: nat): Option<real>
    requires index < |bars|
  {
    if VolumeOf(bars[..index + 1]) > 0.0 then Some(Traded(bars[..index + 1]) / VolumeOf(bars[..index + 1])) else None
  }

  method Vwap(bars: seq<Bar>) returns (result: seq<Option<real>>)
    ensures |result| == |bars|
    ensures forall i :: 0 <= i < |bars| ==> result[i] == VwapAt(bars, i)
  {
    result := [];
    var value, volume := 0.0, 0.0;
    for i := 0 to |bars|
      invariant |result| == i && value == Traded(bars[..i]) && volume == VolumeOf(bars[..i])
      invariant forall j :: 0 <= j < i ==> result[j] == VwapAt(bars, j)
    {
      assert bars[..i + 1][..i] == bars[..i];
      value, volume := value + Typical(bars[i].candle) * bars[i].volume, volume + bars[i].volume;
      result := result + [if volume > 0.0 then Some(value / volume) else None];
    }
  }

  // ---------------------------------------------------------------- the assembled point

  function VolumeRatioAt(bars: seq<Bar>, index: nat): Option<real>
    requires index < |bars|
  {
    var mean := SmaAt(Volumes(bars), 20, index);
    if mean.Some? && mean.value > 0.0 then Some(bars[index].volume / mean.value) else None
  }

  function PointAt(bars: seq<Bar>, index: nat): Indicator
    requires index < |bars|
  {
    var closes := Closes(bars);
    var macd := MacdOf(closes);
    var signal := SparseAt(macd, 9, index);
    Indicator(EmaAt(closes, 20, index), EmaAt(closes, 50, index), EmaAt(closes, 200, index), RsiAt(closes, 14, index),
              macd[index], signal, Minus(macd[index], signal), WilderAt(TrueRangesOf(bars), 14, index), VolumeRatioAt(bars, index))
  }

  /** What `calculate` returns: a point and a VWAP for every candle, and the market structure with its levels. */
  datatype Calculated = Calculated(points: seq<Indicator>, vwap: seq<Option<real>>, structure: Structure, support: Option<real>, resistance: Option<real>)

  ghost predicate IsCalculated(c: Calculated, bars: seq<Bar>) {
    && |c.points| == |c.vwap| == |bars|
    && (forall i :: 0 <= i < |bars| ==> c.points[i] == PointAt(bars, i) && c.vwap[i] == VwapAt(bars, i))
    && c.structure == StructureOf(bars) && c.support == Support(bars) && c.resistance == Resistance(bars)
  }

  /** The engine's `calculate`: whole series first, then one point a candle. */
  method Calculate(bars: seq<Bar>) returns (result: Calculated)
    ensures IsCalculated(result, bars)
  {
    hide EmaAt, WilderAt, RsiAt, SmaAt, SparseAt, TrueRangeAt, StructureOf, VwapAt, Support, Resistance;
    var closes, volumes := Closes(bars), Volumes(bars);
    var ema20 := Ema(closes, 20);
    var ema50 := Ema(closes, 50);
    var ema200 := Ema(closes, 200);
    var vwap := Vwap(bars);
    var rsi := Rsi(closes, 14);
    var ranges := TrueRanges(bars);
    var atr := WilderAverage(ranges, 14);
    var fast := Ema(closes, 12);
    var slow := Ema(closes, 26);
    var macd := seq(|bars|, i requires 0 <= i < |bars| => Minus(fast[i], slow[i]));
    assert macd == MacdOf(closes);
    var signal := EmaSparse(macd, 9);
    var volumeSma := Sma(volumes, 20);
    var points: seq<Indicator> := [];
    for index := 0 to |bars|
      invariant |points| == index
      invariant forall i :: 0 <= i < index ==> points[i] == PointAt(bars, i)
    {
      var ratio := if volumeSma[index].Some? && volumeSma[index].value > 0.0 then Some(bars[index].volume / volumeSma[index].value) else None;
      points := points + [Indicator(ema20[index], ema50[index], ema200[index], rsi[index], macd[index], signal[index],
                                    Minus(macd[index], signal[index]), atr[index], ratio)];
    }
    result := Calculated(points, vwap, StructureOf(bars), Support(bars), Resistance(bars));
  }

  // ---------------------------------------------------------------- market structure

  function Highest(bars: seq<Bar>): real
    requires bars != []
  {
    if |bars| == 1 then bars[0].candle.high else Max(bars[0].candle.high, Highest(bars[1..]))
  }

  function Lowest(bars: seq<Bar>): real
    requires bars != []
  {
    if |bars| == 1 then bars[0].candle.low else Min(bars[0].candle.low, Lowest(bars[1..]))
  }

  /** The last twenty candles, or all of them. */
  function Lookback(bars: seq<Bar>): seq<Bar> { if |bars| < 20 then bars else bars[|bars| - 20..] }

  function Support(bars: seq<Bar>): Option<real> { if bars == [] then None else Some(Lowest(Lookback(bars))) }
  function Resistance(bars: seq<Bar>): Option<real> { if bars == [] then None else Some(Highest(Lookback(bars))) }

  /** Compares the two halves of the last twenty candles. */
  function StructureOf(bars: seq<Bar>): Structure {
    if |bars| < 20 then InsufficientData
    else
      var previous, recent := bars[|bars| - 20..|bars| - 10], bars[|bars| - 10..];
      if Highest(recent) > Highest(previous) && Lowest(recent) > Lowest(previous) then Bullish
      else if Highest(recent) < Highest(previous) && Lowest(recent) < Lowest(previous) then Bearish
      else Range
  }

  /** The greatest high, and the least low, of some candles. */
  ghost predicate Top(bars: seq<Bar>, x: real) {
    (forall i :: 0 <= i < |bars| ==> bars[i].candle.high <= x) && exists i :: 0 <= i < |bars| && bars[i].candle.high == x
  }
  ghost predicate Bottom(bars: seq<Bar>, x: real) {
    (forall i :: 0 <= i < |bars| ==> x <= bars[i].candle.low) && exists i :: 0 <= i < |bars| && bars[i].candle.low == x
  }

  lemma {:induction false} ExtremesOf(bars: seq<Bar>)
    requires bars != []
    ensures Top(bars, Highest(bars)) && Bottom(bars, Lowest(bars))
    ensures forall x :: Top(bars, x) ==> x == Highest(bars)
    ensures forall x :: Bottom(bars, x) ==> x == Lowest(bars)
  {
    if |bars| > 1 {
      var rest := bars[1..];
      ExtremesOf(rest);
      var i :| 0 <= i < |rest| && rest[i].candle.high == Highest(rest);
      var j :| 0 <= j < |rest| && rest[j].candle.low == Lowest(rest);
      assert bars[i + 1] == rest[i] && bars[j + 1] == rest[j];
      forall k | 0 <= k < |bars| ensures Lowest(bars) <= bars[k].candle.low && bars[k].candle.high <= Highest(bars) {
        if k > 0 { assert bars[k] == rest[k - 1]; }
      }
      assert bars[0].candle.high == Highest(bars) || bars[i + 1].candle.high == Highest(bars);
      assert bars[0].candle.low == Lowest(bars) || bars[j + 1].candle.low == Lowest(bars);
    }
  }

  /** Support and resistance are the extremes of the last twenty candles, or of all when there are fewer. */
  lemma LevelsExactly(bars: seq<Bar>)
    requires bars != []
    ensures var last := bars[if |bars| > 20 then |bars| - 20 else 0..];
      Support(bars).Some? && Bottom(last, Support(bars).value) && Resistance(bars).Some? && Top(last, Resistance(bars).value)
  {
    assert Lookback(bars) == bars[if |bars| > 20 then |bars| - 20 else 0..];
    ExtremesOf(Lookback(bars));
    hide Top, Bottom, Highest, Lowest;
  }

  /** The structure compares the last ten candles with the ten before: both extremes higher, both lower, or neither. */
  lemma StructureExactly(bars: seq<Bar>, high: real, low: real, newHigh: real, newLow: real)
    requires |bars| >= 20 ==>
      && Top(bars[|bars| - 20..|bars| - 10], high) && Bottom(bars[|bars| - 20..|bars| - 10], low)
      && Top(bars[|bars| - 10..], newHigh) && Bottom(bars[|bars| - 10..], newLow)
    ensures StructureOf(bars) ==
      if |bars| < 20 then InsufficientData
      else if high < newHigh && low < newLow then Bullish
      else if newHigh < high && newLow < low then Bearish
      else Range
  {
    if |bars| >= 20 {
      ExtremesOf(bars[|bars| - 20..|bars| - 10]);
      ExtremesOf(bars[|bars| - 10..]);
    }
    hide Top, Bottom, Highest, Lowest;
  }

  // ---------------------------------------------------------------- reflection of the whole series

  function Negated(values: seq<Option<real>>): (r: seq<Option<real>>)
    ensures |r| == |values|
    ensures forall i :: 0 <= i < |r| ==> r[i] == MirrorPrice(values[i], 0.0)
  {
    seq(|values|, i requires 0 <= i < |values| => MirrorPrice(values[i], 0.0))
  }

  lemma EmaReflects(values: seq<real>, period: nat, index: nat, k: real)
    requires 0 < period && index < |values|
    ensures EmaAt(Mirrored(values, k), period, index) == MirrorPrice(EmaAt(values, period, index), k)
  {
    hide SmoothAt, EmaWeight;
    if period <= index + 1 { SmoothReflects(values, period, EmaWeight(period), index, k); }
  }

  lemma {:induction false} DenseReflects(values: seq<Option<real>>)
    ensures Dense(Negated(values)) == Mirrored(Dense(values), 0.0)
  {
    if values != [] {
      var init := values[..|values| - 1];
      DenseReflects(init);
      assert Negated(values)[..|values| - 1] == Negated(init);
    }
  }

  lemma SparseReflects(values: seq<Option<real>>, period: nat, index: nat)
    requires 0 < period && index < |values|
    ensures SparseAt(Negated(values), period, index) == MirrorPrice(SparseAt(values, period, index), 0.0)
  {
    hide EmaAt, Dense;
    if values[index].Some? {
      DenseAt(values, index);
      DenseReflects(values);
      DenseReflects(values[..index]);
      assert Negated(values)[..index] == Negated(values[..index]);
      EmaReflects(Dense(values), period, Rank(values, index), 0.0);
    }
  }

  lemma ClosesReflect(bars: seq<Bar>, k: real)
    ensures Closes(MirrorBars(bars, k)) == Mirrored(Closes(bars), k)
    ensures Volumes(MirrorBars(bars, k)) == Volumes(bars)
  {
  }

  lemma MacdReflects(closes: seq<real>, k: real)
    ensures MacdOf(Mirrored(closes, k)) == Negated(MacdOf(closes))
  {
    hide EmaAt;
    forall i | 0 <= i < |closes| ensures MacdAt(Mirrored(closes, k), i) == MirrorPrice(MacdAt(closes, i), 0.0) {
      EmaReflects(closes, 12, i, k);
      EmaReflects(closes, 26, i, k);
    }
  }

  /** True ranges, hence ATR, do not see the reflection. */
  lemma TrueRangesKept(bars: seq<Bar>, k: real)
    ensures TrueRangesOf(MirrorBars(bars, k)) == TrueRangesOf(bars)
  {
    forall i | 0 <= i < |bars| ensures TrueRangeAt(MirrorBars(bars, k), i) == TrueRangeAt(bars, i) {
    }
  }

  lemma PointReflects(bars: seq<Bar>, index: nat, k: real)
    requires index < |bars|
    ensures PointAt(MirrorBars(bars, k), index) == MirrorIndicator(PointAt(bars, index), k)
  {
    hide EmaAt, WilderAt, RsiAt, SmaAt, SparseAt, MacdAt;
    var closes := Closes(bars);
    ClosesReflect(bars, k);
    MacdReflects(closes, k);
    TrueRangesKept(bars, k);
    EmaReflects(closes, 20, index, k);
    EmaReflects(closes, 50, index, k);
    EmaReflects(closes, 200, index, k);
    RsiReflects(closes, 14, index, k);
    SparseReflects(MacdOf(closes), 9, index);
  }

  lemma {:induction false} RangeReflects(bars: seq<Bar>, k: real)
    requires bars != []
    ensures Highest(MirrorBars(bars, k)) == k - Lowest(bars)
    ensures Lowest(MirrorBars(bars, k)) == k - Highest(bars)
  {
    if |bars| > 1 {
      RangeReflects(bars[1..], k);
      assert MirrorBars(bars, k)[1..] == MirrorBars(bars[1..], k);
    }
  }

  lemma StructureReflects(bars: seq<Bar>, k: real)
    ensures StructureOf(MirrorBars(bars, k)) == MirrorStructure(StructureOf(bars))
  {
    hide Highest, Lowest;
    if |bars| >= 20 {
      var previous, recent := bars[|bars| - 20..|bars| - 10], bars[|bars| - 10..];
      RangeReflects(previous, k);
      RangeReflects(recent, k);
      assert MirrorBars(bars, k)[|bars| - 20..|bars| - 10] == MirrorBars(previous, k);
      assert MirrorBars(bars, k)[|bars| - 10..] == MirrorBars(recent, k);
    }
  }

  /** Reflection exchanges support and resistance. */
  lemma LevelsReflect(bars: seq<Bar>, k: real)
    ensures Support(MirrorBars(bars, k)) == MirrorPrice(Resistance(bars), k)
    ensures Resistance(MirrorBars(bars, k)) == MirrorPrice(Support(bars), k)
  {
    hide Highest, Lowest;
    if bars != [] {
      RangeReflects(Lookback(bars), k);
      assert Lookback(MirrorBars(bars, k)) == MirrorBars(Lookback(bars), k);
    }
  }

  lemma TypicalReflects(c: Candle, volume: real, k: real)
    ensures Typical(MirrorCandle(c, k)) * volume == k * volume - Typical(c) * volume
  {
    assert Typical(MirrorCandle(c, k)) == k - Typical(c);
  }

  lemma {:induction false} TradedReflects(bars: seq<Bar>, k: real)
    ensures VolumeOf(MirrorBars(bars, k)) == VolumeOf(bars)
    ensures Traded(MirrorBars(bars, k)) == k * VolumeOf(bars) - Traded(bars)
  {
    hide Typical;
    if bars != [] {
      var init, last := bars[..|bars| - 1], bars[|bars| - 1];
      TradedReflects(init, k);
      assert MirrorBars(bars, k)[..|bars| - 1] == MirrorBars(init, k);
      TypicalReflects(last.candle, last.volume, k);
      assert k * VolumeOf(bars) == k * VolumeOf(init) + k * last.volume;
    }
  }

  lemma VwapReflects(bars: seq<Bar>, index: nat, k: real)
    requires index < |bars|
    ensures VwapAt(MirrorBars(bars, k), index) == MirrorPrice(VwapAt(bars, index), k)
  {
    hide Traded, VolumeOf, MirrorBars, MirrorCandle;
    var seen, mirrored := bars[..index + 1], MirrorBars(bars, k)[..index + 1];
    assert mirrored == MirrorBars(seen, k) by { PrefixReflects(bars, index + 1, k); }
    TradedReflects(seen, k);
    var volume, traded := VolumeOf(seen), Traded(seen);
    assert VolumeOf(mirrored) == volume && Traded(mirrored) == k * volume - traded;
    if volume > 0.0 { SplitQuotient(k, traded, volume); }
  }

  lemma PrefixReflects(bars: seq<Bar>, n: nat, k: real)
    requires n <= |bars|
    ensures MirrorBars(bars, k)[..n] == MirrorBars(bars[..n], k)
  {
  }
}
