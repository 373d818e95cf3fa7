/** The closed-candle indicator engine of app/services/indicators.py. Each loop is proved against a definition that
    does not mention the loop's running variables; bounds and the reflection laws are proved of the definitions. */
module Indicators {
  import opened Trading
  import opened Strategy
  import opened StrategySymmetry

  datatype Bar = Bar(candle: Candle, volume: real, openTime: int, quoteVolume: real, trades: int)

  function MirrorBar(b: Bar, k: real): Bar { b.(candle := MirrorCandle(b.candle, k)) }

  function MirrorBars(bars: seq<Bar>, k: real): (r: seq<Bar>)
    ensures |r| == |bars|
    ensures forall i :: 0 <= i < |r| ==> r[i] == MirrorBar(bars[i], k)
  {
    seq(|bars|, i requires 0 <= i < |bars| => MirrorBar(bars[i], k))
  }

  // ---------------------------------------------------------------- sums and averages

  function Sum(values: seq<real>): real {
    if values == [] then 0.0 else Sum(values[..|values| - 1]) + values[|values| - 1]
  }

  function Average(values: seq<real>): real
    requires values != []
  {
    Sum(values) / (|values| as real)
  }

  function Mirrored(values: seq<real>, k: real): (r: seq<real>)
    ensures |r| == |values|
    ensures forall i :: 0 <= i < |r| ==> r[i] == k - values[i]
  {
    seq(|values|, i requires 0 <= i < |values| => k - values[i])
  }

  lemma {:induction false} SumFromTheFront(values: seq<real>)
    requires values != []
    ensures Sum(values) == values[0] + Sum(values[1..])
  {
    if |values| > 1 {
      var init := values[..|values| - 1];
      SumFromTheFront(init);
      assert values[1..][..|values| - 2] == init[1..];
    }
  }

  lemma WindowSlides(values: seq<real>, from: nat, to: nat)
    requires from < to < |values|
    ensures Sum(values[from + 1..to + 1]) == Sum(values[from..to]) + values[to] - values[from]
  {
    var wide := values[from..to + 1];
    SumFromTheFront(wide);
    assert wide[1..] == values[from + 1..to + 1];
    assert wide[..|wide| - 1] == values[from..to];
  }

  lemma {:induction false} SumReflects(values: seq<real>, k: real)
    ensures Sum(Mirrored(values, k)) == k * (|values| as real) - Sum(values)
  {
    if values != [] {
      var init := values[..|values| - 1];
      SumReflects(init, k);
      assert Mirrored(values, k)[..|values| - 1] == Mirrored(init, k);
      assert k * (|values| as real) == k * (|init| as real) + k;
    }
  }

  lemma AverageReflects(values: seq<real>, k: real)
    requires values != []
    ensures Average(Mirrored(values, k)) == k - Average(values)
  {
    SumReflects(values, k);
    SplitQuotient(k, Sum(values), |values| as real);
  }

  lemma SplitQuotient(k: real, sum: real, n: real)
    requires n > 0.0
    ensures (k * n - sum) / n == k - sum / n
  {
  }

  lemma {:induction false} SumAtLeast(values: seq<real>, low: real)
    requires forall i :: 0 <= i < |values| ==> low <= values[i]
    ensures low * (|values| as real) <= Sum(values)
  {
    if values != [] {
      SumAtLeast(values[..|values| - 1], low);
      assert low * (|values| as real) == low * ((|values| - 1) as real) + low;
    }
  }

  lemma AverageAtLeast(values: seq<real>, low: real)
    requires values != [] && forall i :: 0 <= i < |values| ==> low <= values[i]
    ensures low <= Average(values)
  {
    SumAtLeast(values, low);
    QuotientAtLeast(low, Sum(values), |values| as real);
  }

  lemma QuotientAtLeast(low: real, sum: real, n: real)
    requires n > 0.0 && low * n <= sum
    ensures low <= sum / n
  {
  }

  // ---------------------------------------------------------------- simple moving average

  function SmaAt(values: seq<real>, period: nat, index: nat): Option<real>
    requires 0 < period && index < |values|
  {
    if index + 1 < period then None else Some(Average(values[index + 1 - period..index + 1]))
  }

  /** The running sum equals the window mean at every index. */
  method Sma(values: seq<real>, period: nat) returns (result: seq<Option<real>>)
    requires 0 < period
    ensures |result| == |values|
    ensures forall i :: 0 <= i < |values| ==> result[i] == SmaAt(values, period, i)
  {
    result := seq(|values|, _ => None);
    if |values| < period { return; }
    var rolling := Sum(values[..period]);
    result := result[period - 1 := Some(rolling / (period as real))];
    for index := period to |values|
      invariant |result| == |values|
      invariant rolling == Sum(values[index - period..index])
      invariant forall i :: 0 <= i < index ==> result[i] == SmaAt(values, period, i)
    {
      WindowSlides(values, index - period, index);
      rolling := rolling + values[index] - values[index - period];
      result := result[index := Some(rolling / (period as real))];
    }
  }

  // ---------------------------------------------------------------- exponential smoothing

  /** Seeded with the plain average of the first `period` values, then moved by `weight` of each difference. */
  function SmoothAt(values: seq<real>, period: nat, weight: real, index: nat): real
    requires 0 < period <= index + 1 <= |values|
    decreases index
  {
    if index + 1 == period then Average(values[..period])
    else Step(SmoothAt(values, period, weight, index - 1), values[index], weight)
  }

  function Step(current: real, value: real, weight: real): real {
    (value - current) * weight + current
  }

  function EmaWeight(period: nat): real { 2.0 / ((period + 1) as real) }

  function WilderWeight(period: nat): real
    requires 0 < period
  {
    1.0 / (period as real)
  }

  function EmaAt(values: seq<real>, period: nat, index: nat): Option<real>
    requires 0 < period && index < |values|
  {
    if index + 1 < period then None else Some(SmoothAt(values, period, EmaWeight(period), index))
  }

  function WilderAt(values: seq<real>, period: nat, index: nat): Option<real>
    requires 0 < period && index < |values|
  {
    if index + 1 < period then None else Some(SmoothAt(values, period, WilderWeight(period), index))
  }

  method Ema(values: seq<real>, period: nat) returns (result: seq<Option<real>>)
    requires 0 < period
    ensures |result| == |values|
    ensures forall i :: 0 <= i < |values| ==> result[i] == EmaAt(values, period, i)
  {
    result := seq(|values|, _ => None);
    if |values| < period { return; }
    var alpha := 2.0 / ((period + 1) as real);
    var current := Average(values[..period]);
    result := result[period - 1 := Some(current)];
    for index := period to |values|
      invariant |result| == |values|
      invariant current == SmoothAt(values, period, EmaWeight(period), index - 1)
      invariant forall i :: 0 <= i < index ==> result[i] == EmaAt(values, period, i)
      invariant forall i :: index <= i < |values| ==> result[i] == None
    {
      current := (values[index] - current) * alpha + current;
      result := result[index := Some(current)];
    }
  }

  /** Wilder's update as the source writes it. */
  function WilderNext(current: real, value: real, period: nat): real
    requires 0 < period
  {
    (current * ((period - 1) as real) + value) / (period as real)
  }

  /** It moves the average by 1 / period of the difference. */
  lemma WilderStep(current: real, value: real, period: nat)
    requires 0 < period
    ensures WilderNext(current, value, period) == Step(current, value, WilderWeight(period))
  {
    var p := period as real;
    assert (period - 1) as real == p - 1.0;
    assert current * (p - 1.0) + value == (value - current) + current * p;
    SplitQuotient(current, current - value, p);
    assert (value - current) / p == (value - current) * (1.0 / p);
  }

  method WilderAverage(values: seq<real>, period: nat) returns (result: seq<Option<real>>)
    requires 0 < period
    ensures |result| == |values|
    ensures forall i :: 0 <= i < |values| ==> result[i] == WilderAt(values, period, i)
  {
    hide Step, WilderWeight, WilderNext, Average;
    result := seq(|values|, _ => None);
    if |values| < period { return; }
    var current := Average(values[..period]);
    result := result[period - 1 := Some(current)];
    for index := period to |values|
      invariant |result| == |values|
      invariant current == SmoothAt(values, period, WilderWeight(period), index - 1)
      invariant forall i :: 0 <= i < index ==> result[i] == WilderAt(values, period, i)
    {
      WilderStep(current, values[index], period);
      current := WilderNext(current, values[index], period);
      result := result[index := Some(current)];
    }
  }

  lemma StepAtLeast(current: real, value: real, weight: real, low: real)
    requires 0.0 <= weight <= 1.0 && low <= current && low <= value
    ensures low <= Step(current, value, weight)
  {
    assert Step(current, value, weight) - low == (value - low) * weight + (current - low) * (1.0 - weight);
    assert (value - low) * weight >= 0.0;
    assert (current - low) * (1.0 - weight) >= 0.0;
  }

  /** Smoothing never leaves the range of the inputs seen so far: lower half. */
  lemma {:induction false} SmoothAtLeast(values: seq<real>, period: nat, weight: real, index: nat, low: real)
    requires 0 < period <= index + 1 <= |values| && 0.0 <= weight <= 1.0
    requires forall i :: 0 <= i <= index ==> low <= values[i]
    ensures low <= SmoothAt(values, period, weight, index)
    decreases index
  {
    hide Step;
    if index + 1 == period {
      AverageAtLeast(values[..period], low);
    } else {
      SmoothAtLeast(values, period, weight, index - 1, low);
      StepAtLeast(SmoothAt(values, period, weight, index - 1), values[index], weight, low);
    }
  }

  lemma StepReflects(current: real, value: real, weight: real, k: real)
    ensures Step(k - current, k - value, weight) == k - Step(current, value, weight)
  {
    assert (k - value - (k - current)) * weight == -((value - current) * weight);
  }

  lemma {:induction false} SmoothReflects(values: seq<real>, period: nat, weight: real, index: nat, k: real)
    requires 0 < period <= index + 1 <= |values|
    ensures SmoothAt(Mirrored(values, k), period, weight, index) == k - SmoothAt(values, period, weight, index)
    decreases index
  {
    hide Step, Average;
    if index + 1 == period {
      AverageReflects(values[..period], k);
      assert Mirrored(values, k)[..period] == Mirrored(values[..period], k);
    } else {
      SmoothReflects(values, period, weight, index - 1, k);
      StepReflects(SmoothAt(values, period, weight, index - 1), values[index], weight, k);
    }
  }

  /** Every EMA and every Wilder average lies between the least and the greatest input seen so far. */
  lemma AveragesStayWithinInputs(values: seq<real>, period: nat, index: nat, low: real, high: real)
    requires 0 < period && index < |values|
    requires forall i :: 0 <= i <= index ==> low <= values[i] <= high
    ensures EmaAt(values, period, index).Some? ==> low <= EmaAt(values, period, index).value <= high
    ensures WilderAt(values, period, index).Some? ==> low <= WilderAt(values, period, index).value <= high
  {
    hide SmoothAt;
    if period <= index + 1 {
      WeightsAreFractions(period);
      SmoothBetween(values, period, EmaWeight(period), index, low, high);
      SmoothBetween(values, period, WilderWeight(period), index, low, high);
    }
  }

  lemma WeightsAreFractions(period: nat)
    requires 0 < period
    ensures 0.0 <= EmaWeight(period) <= 1.0 && 0.0 <= WilderWeight(period) <= 1.0
  {
  }

  lemma SmoothBetween(values: seq<real>, period: nat, weight: real, index: nat, low: real, high: real)
    requires 0 < period <= index + 1 <= |values| && 0.0 <= weight <= 1.0
    requires forall i :: 0 <= i <= index ==> low <= values[i] <= high
    ensures low <= SmoothAt(values, period, weight, index) <= high
  {
    SmoothAtLeast(values, period, weight, index, low);
    SmoothAtLeast(Mirrored(values, 0.0), period, weight, index, -high);
    SmoothReflects(values, period, weight, index, 0.0);
  }

  // ---------------------------------------------------------------- relative strength

  function Change(closes: seq<real>, i: nat): real
    requires i + 1 < |closes|
  {
    closes[i + 1] - closes[i]
  }

  function Gains(closes: seq<real>): (r: seq<real>)
    ensures |r| == if closes == [] then 0 else |closes| - 1
    ensures forall i :: 0 <= i < |r| ==> r[i] == Max(Change(closes, i), 0.0)
  {
    if closes == [] then [] else seq(|closes| - 1, i requires 0 <= i < |closes| - 1 => Max(Change(closes, i), 0.0))
  }

  function Losses(closes: seq<real>): (r: seq<real>)
    ensures |r| == if closes == [] then 0 else |closes| - 1
    ensures forall i :: 0 <= i < |r| ==> r[i] == Max(-Change(closes, i), 0.0)
  {
    if closes == [] then [] else seq(|closes| - 1, i requires 0 <= i < |closes| - 1 => Max(-Change(closes, i), 0.0))
  }

  function RsiValue(gain: real, loss: real): real
    requires 0.0 <= gain && 0.0 <= loss
  {
    if loss == 0.0 then (if gain > 0.0 then 100.0 else 50.0)
    else
      var strength := gain / loss;
      100.0 - 100.0 / (1.0 + strength)
  }

  /** RSI is a function of the Wilder averages of gains and losses. */
  function RsiAt(closes: seq<real>, period: nat, index: nat): Option<real>
    requires 0 < period && index < |closes|
  {
    if index < period then None
    else
      AveragesNonNegative(closes, period, index);
      Some(RsiValue(SmoothAt(Gains(closes), period, WilderWeight(period), index - 1),
                    SmoothAt(Losses(closes), period, WilderWeight(period), index - 1)))
  }

  lemma AveragesNonNegative(closes: seq<real>, period: nat, index: nat)
    requires 0 < period <= index < |closes|
    ensures 0.0 <= SmoothAt(Gains(closes), period, WilderWeight(period), index - 1)
    ensures 0.0 <= SmoothAt(Losses(closes), period, WilderWeight(period), index - 1)
  {
    hide *;
    var gains, losses, weight := Gains(closes), Losses(closes), WilderWeight(period);
    WeightsAreFractions(period);
    MovesNonNegative(closes);
    SmoothAtLeast(gains, period, weight, index - 1, 0.0);
    SmoothAtLeast(losses, period, weight, index - 1, 0.0);
  }

  lemma MovesNonNegative(closes: seq<real>)
    ensures forall i :: 0 <= i < |Gains(closes)| ==> 0.0 <= Gains(closes)[i]
    ensures forall i :: 0 <= i < |Losses(closes)| ==> 0.0 <= Losses(closes)[i]
  {
  }

  method Rsi(closes: seq<real>, period: nat) returns (result: seq<Option<real>>)
    requires 0 < period
    ensures |result| == |closes|
    ensures forall i :: 0 <= i < |closes| ==> result[i] == RsiAt(closes, period, i)
  {
    hide Step, WilderWeight, WilderNext, Average, RsiValue, Max, Gains, Losses;
    result := seq(|closes|, _ => None);
    if |closes| <= period { return; }
    var gains, losses := Gains(closes), Losses(closes);
    var averageGain, averageLoss := Average(gains[..period]), Average(losses[..period]);
    AveragesNonNegative(closes, period, period);
    result := result[period := Some(RsiValue(averageGain, averageLoss))];
    for index := period + 1 to |closes|
      invariant |result| == |closes|
      invariant averageGain == SmoothAt(gains, period, WilderWeight(period), index - 2)
      invariant averageLoss == SmoothAt(losses, period, WilderWeight(period), index - 2)
      invariant forall i :: 0 <= i < index ==> result[i] == RsiAt(closes, period, i)
    {
      var change := index - 1;
      WilderStep(averageGain, gains[change], period);
      WilderStep(averageLoss, losses[change], period);
      averageGain := WilderNext(averageGain, gains[change], period);
      averageLoss := WilderNext(averageLoss, losses[change], period);
      AveragesNonNegative(closes, period, index);
      result := result[index := Some(RsiValue(averageGain, averageLoss))];
    }
  }

  /** For positive losses the formula is the share of the gain in the total movement. */
  lemma RsiIsShare(gain: real, loss: real)
    requires 0.0 <= gain && 0.0 < loss
    ensures RsiValue(gain, loss) == 100.0 * gain / (gain + loss)
  {
    var strength := gain / loss;
    assert strength * loss == gain;
    assert (1.0 + strength) * loss == loss + gain;
    assert 100.0 / (1.0 + strength) == 100.0 * loss / (gain + loss) by { CancelFactor(1.0 + strength, loss, gain + loss); }
    assert 100.0 * gain / (gain + loss) + 100.0 * loss / (gain + loss) == 100.0;
  }

  lemma CancelFactor(x: real, y: real, product: real)
    requires x > 0.0 && y > 0.0 && x * y == product
    ensures 100.0 / x == 100.0 * y / product
  {
    assert 100.0 / x * product == 100.0 * y;
  }

  lemma RsiValueLaws(gain: real, loss: real)
    requires 0.0 <= gain && 0.0 <= loss
    ensures 0.0 <= RsiValue(gain, loss) <= 100.0
    ensures RsiValue(loss, gain) == 100.0 - RsiValue(gain, loss)
  {
    if loss > 0.0 { RsiIsShare(gain, loss); ShareOfTotal(gain, loss); }
    if gain > 0.0 { RsiIsShare(loss, gain); ShareOfTotal(loss, gain); }
  }

  lemma ShareOfTotal(part: real, rest: real)
    requires 0.0 <= part && 0.0 < rest
    ensures 0.0 <= 100.0 * part / (part + rest) <= 100.0
    ensures 100.0 * part / (part + rest) == 100.0 - 100.0 * rest / (rest + part)
  {
    var total := part + rest;
    SplitQuotient(100.0, 100.0 * rest, total);
    assert 100.0 * total - 100.0 * rest == 100.0 * part;
    QuotientAtLeast(0.0, 100.0 * part, total);
    QuotientAtLeast(0.0, 100.0 * rest, total);
  }

  lemma RsiWithinHundred(closes: seq<real>, period: nat, index: nat)
    requires 0 < period && index < |closes|
    ensures RsiAt(closes, period, index).Some? ==> 0.0 <= RsiAt(closes, period, index).value <= 100.0
  {
    hide RsiValue, SmoothAt, WilderWeight;
    if period <= index {
      AveragesNonNegative(closes, period, index);
      RsiValueLaws(SmoothAt(Gains(closes), period, WilderWeight(period), index - 1), SmoothAt(Losses(closes), period, WilderWeight(period), index - 1));
    }
  }

  lemma MovesExchange(closes: seq<real>, k: real)
    ensures Gains(Mirrored(closes, k)) == Losses(closes) && Losses(Mirrored(closes, k)) == Gains(closes)
  {
    forall i: nat | i + 1 < |closes| ensures Change(Mirrored(closes, k), i) == -Change(closes, i) {}
    hide Change;
    assert Gains(Mirrored(closes, k)) == Losses(closes);
    assert Losses(Mirrored(closes, k)) == Gains(closes);
  }

  lemma RsiReflects(closes: seq<real>, period: nat, index: nat, k: real)
    requires 0 < period && index < |closes|
    ensures RsiAt(Mirrored(closes, k), period, index) == MirrorPrice(RsiAt(closes, period, index), 100.0)
  {
    hide RsiValue, SmoothAt, WilderWeight, Gains, Losses;
    MovesExchange(closes, k);
    if period <= index {
      AveragesNonNegative(closes, period, index);
      RsiValueLaws(SmoothAt(Gains(closes), period, WilderWeight(period), index - 1), SmoothAt(Losses(closes), period, WilderWeight(period), index - 1));
    }
  }
}
