/** Exact normalisation of quantities and protective prices to exchange steps and ticks
    (app/services/exchange_rules.py), and the risk contract the rounding keeps. */
module ExchangeRules {
  import opened Trading

  datatype RuleError =
    | BelowMinimum
    | QuantityOutsideLimits
    | StepViolation
    | TriggerNotPositive
    | PriceOutsideLimits
    | TickViolation
    | MarkUnavailable
    | NotionalBelowMinimum

  datatype Rules = Rules(
    quantityMin: real, quantityMax: real, quantityStep: real,
    priceMin: real, priceMax: real, priceTick: real,
    minNotional: real)
  {
    /** What parsing the exchange filters guarantees of every accepted rule set. */
    predicate Valid() {
      && 0.0 < quantityMin <= quantityMax && 0.0 < quantityStep
      && 0.0 <= priceMin < priceMax && 0.0 < priceTick
      && 0.0 < minNotional
    }
  }

  /** A named product, so that proofs can hide the multiplication and keep the order facts. */
  function Scale(a: real, b: real): real {
    a * b
  }

  /** The k-th multiple of `unit`. */
  function Steps(k: int, unit: real): real {
    Scale(k as real, unit)
  }

  /** Greatest multiple of `unit` not above `x`. */
  function RoundDown(x: real, unit: real): real
    requires unit > 0.0
  {
    Steps((x / unit).Floor, unit)
  }

  /** Least multiple of `unit` not below `x`. */
  function RoundUp(x: real, unit: real): real
    requires unit > 0.0
  {
    -RoundDown(-x, unit)
  }

  ghost predicate IsMultiple(x: real, unit: real) {
    exists k: int :: x == Steps(k, unit)
  }

  /** The remainder test `value % unit != 0` of the source. */
  predicate OffGrid(x: real, unit: real)
    requires unit > 0.0
  {
    x != RoundDown(x, unit)
  }

  function NormalizeMarketQuantity(rules: Rules, raw: real): Result<real, RuleError>
    requires rules.Valid()
  {
    if raw < rules.quantityMin then Err(BelowMinimum)
    else
      var n := RoundDown(raw, rules.quantityStep);
      if n < rules.quantityMin || n > rules.quantityMax then Err(QuantityOutsideLimits)
      else if OffGrid(n, rules.quantityStep) then Err(StepViolation)
      else Ok(n)
  }

  predicate RoundsUp(direction: Direction, isStop: bool) {
    if isStop then direction == Short else direction == Long
  }

  function NormalizeProtectivePrice(rules: Rules, raw: real, direction: Direction, isStop: bool): Result<real, RuleError>
    requires rules.Valid()
  {
    if raw <= 0.0 then Err(TriggerNotPositive)
    else
      var n := if RoundsUp(direction, isStop) then RoundUp(raw, rules.priceTick) else RoundDown(raw, rules.priceTick);
      if n < rules.priceMin || n > rules.priceMax then Err(PriceOutsideLimits)
      else if OffGrid(n, rules.priceTick) then Err(TickViolation)
      else Ok(n)
  }

  function ValidateMarketNotional(rules: Rules, quantity: real, mark: real): Result<real, RuleError> {
    if mark <= 0.0 then Err(MarkUnavailable)
    else if quantity * mark < rules.minNotional then Err(NotionalBelowMinimum)
    else Ok(quantity * mark)
  }

  // ---------------------------------------------------------------- grid facts

  lemma ScaleLe(a: real, b: real, unit: real)
    requires unit > 0.0
    ensures a <= b <==> Scale(a, unit) <= Scale(b, unit)
  {
    var d := b - a;
    assert b * unit - a * unit == d * unit;
    if d >= 0.0 { assert d * unit >= 0.0; } else { assert -d * unit > 0.0; }
  }

  lemma StepsMonotone(j: int, k: int, unit: real)
    requires unit > 0.0
    ensures j <= k <==> Steps(j, unit) <= Steps(k, unit)
    ensures Steps(k + 1, unit) == Steps(k, unit) + unit
    ensures Steps(-k, unit) == -Steps(k, unit)
  {
    ScaleLe(j as real, k as real, unit);
  }

  lemma QuotientTimesUnit(x: real, unit: real)
    requires unit > 0.0
    ensures Scale(x / unit, unit) == x
  {
  }

  /** RoundDown is the greatest multiple at or below its argument, and is less than one unit away. */
  lemma RoundDownIsGreatest(x: real, unit: real)
    requires unit > 0.0
    ensures IsMultiple(RoundDown(x, unit), unit)
    ensures RoundDown(x, unit) <= x < RoundDown(x, unit) + unit
    ensures forall k: int :: Steps(k, unit) <= x ==> Steps(k, unit) <= RoundDown(x, unit)
  {
    hide Scale;
    var q := x / unit;
    QuotientTimesUnit(x, unit);
    ScaleLe(q.Floor as real, q, unit);
    ScaleLe((q.Floor + 1) as real, q, unit);
    StepsMonotone(q.Floor, q.Floor, unit);
    forall k: int | Steps(k, unit) <= x
      ensures Steps(k, unit) <= RoundDown(x, unit)
    {
      ScaleLe(k as real, q, unit);
      StepsMonotone(k, q.Floor, unit);
    }
  }

  /** RoundUp is the least multiple at or above its argument, and is less than one unit away. */
  lemma RoundUpIsLeast(x: real, unit: real)
    requires unit > 0.0
    ensures IsMultiple(RoundUp(x, unit), unit)
    ensures RoundUp(x, unit) - unit < x <= RoundUp(x, unit)
    ensures forall k: int :: x <= Steps(k, unit) ==> RoundUp(x, unit) <= Steps(k, unit)
  {
    RoundDownIsGreatest(-x, unit);
    var k: int :| RoundDown(-x, unit) == Steps(k, unit);
    StepsMonotone(k, k, unit);
    assert RoundUp(x, unit) == Steps(-k, unit);
    forall j: int | x <= Steps(j, unit)
      ensures RoundUp(x, unit) <= Steps(j, unit)
    {
      StepsMonotone(j, j, unit);
      assert Steps(-j, unit) <= -x;
    }
  }

  /** A multiple is on the grid: rounding leaves it alone, so the source's remainder checks never fire. */
  lemma MultipleIsFixed(x: real, unit: real)
    requires unit > 0.0 && IsMultiple(x, unit)
    ensures RoundDown(x, unit) == x == RoundUp(x, unit)
  {
    var k: int :| x == Steps(k, unit);
    RoundDownIsGreatest(x, unit);
    RoundUpIsLeast(x, unit);
  }

  // ---------------------------------------------------------------- normalisation

  /** Quantity normalisation: success exactly when the greatest step multiple lies within limits, and
      then it returns that multiple, which never exceeds the approved quantity. */
  lemma MarketQuantityIsGreatestStep(rules: Rules, raw: real)
    requires rules.Valid()
    ensures var r := NormalizeMarketQuantity(rules, raw);
      && r != Err(StepViolation)
      && (r.Ok? <==> raw >= rules.quantityMin && rules.quantityMin <= RoundDown(raw, rules.quantityStep) <= rules.quantityMax)
      && (r.Ok? ==>
            && 0.0 < r.value <= raw < r.value + rules.quantityStep
            && IsMultiple(r.value, rules.quantityStep)
            && forall k: int :: Steps(k, rules.quantityStep) <= raw ==> Steps(k, rules.quantityStep) <= r.value)
  {
    RoundDownIsGreatest(raw, rules.quantityStep);
    MultipleIsFixed(RoundDown(raw, rules.quantityStep), rules.quantityStep);
  }

  /** A protective trigger moves away from the entry side by less than one tick; the tick check never fires. */
  lemma ProtectivePriceMovesAway(rules: Rules, raw: real, direction: Direction, isStop: bool)
    requires rules.Valid()
    ensures var r := NormalizeProtectivePrice(rules, raw, direction, isStop);
      && r != Err(TickViolation)
      && (r.Ok? ==>
            && IsMultiple(r.value, rules.priceTick)
            && rules.priceMin <= r.value <= rules.priceMax
            && (RoundsUp(direction, isStop) ==> raw <= r.value < raw + rules.priceTick)
            && (!RoundsUp(direction, isStop) ==> raw - rules.priceTick < r.value <= raw))
  {
    RoundDownIsGreatest(raw, rules.priceTick);
    RoundUpIsLeast(raw, rules.priceTick);
    if RoundsUp(direction, isStop) {
      MultipleIsFixed(RoundUp(raw, rules.priceTick), rules.priceTick);
    } else {
      MultipleIsFixed(RoundDown(raw, rules.priceTick), rules.priceTick);
    }
  }

  /** Normalising twice changes nothing. */
  lemma NormalisationIsIdempotent(rules: Rules, raw: real, direction: Direction, isStop: bool)
    requires rules.Valid()
    ensures var q := NormalizeMarketQuantity(rules, raw);
      q.Ok? ==> NormalizeMarketQuantity(rules, q.value) == q
    ensures var p := NormalizeProtectivePrice(rules, raw, direction, isStop);
      p.Ok? && p.value > 0.0 ==> NormalizeProtectivePrice(rules, p.value, direction, isStop) == p
  {
    RoundDownIsGreatest(raw, rules.quantityStep);
    MultipleIsFixed(RoundDown(raw, rules.quantityStep), rules.quantityStep);
    ProtectivePriceMovesAway(rules, raw, direction, isStop);
    var p := NormalizeProtectivePrice(rules, raw, direction, isStop);
    if p.Ok? {
      MultipleIsFixed(p.value, rules.priceTick);
    }
  }

  /** Raw take-profit target: `multiple` times the stop distance on the other side of the entry. */
  function TakeProfitTarget(direction: Direction, entry: real, stop: real, multiple: real): real {
    if direction == Long then entry + Abs(entry - stop) * multiple
    else entry - Abs(entry - stop) * multiple
  }

  /** The stop is on the losing side of the entry. */
  predicate StopOnLosingSide(direction: Direction, entry: real, stop: real) {
    if direction == Long then stop < entry else stop > entry
  }

  /** The target is at least `multiple` stop distances away from the entry. */
  predicate RewardKept(entry: real, stop: real, target: real, multiple: real) {
    Abs(target - entry) >= multiple * Abs(entry - stop)
  }

  /** Reward contract: whatever the fill price, the rounded take-profit distance is at least the R
      multiple of the rounded stop distance, for both directions. */
  lemma RewardAtLeastMultiple(rules: Rules, direction: Direction, entry: real, stop: real, multiple: real)
    requires rules.Valid() && multiple > 0.0
    requires StopOnLosingSide(direction, entry, stop)
    ensures var r := NormalizeProtectivePrice(rules, TakeProfitTarget(direction, entry, stop, multiple), direction, false);
      r.Ok? ==>
        && RewardKept(entry, stop, r.value, multiple)
        && Abs(r.value - entry) < multiple * Abs(entry - stop) + rules.priceTick
        && StopOnLosingSide(direction.Opposite(), entry, r.value)
  {
    var target := TakeProfitTarget(direction, entry, stop, multiple);
    ProtectivePriceMovesAway(rules, target, direction, false);
    assert Abs(entry - stop) * multiple > 0.0;
  }

  /** The loss at the stop is below the budget plus one tick per unit. */
  predicate LossBounded(quantity: real, entry: real, stop: real, budget: real, tick: real) {
    quantity * Abs(entry - stop) < budget + quantity * tick
  }

  lemma RoundedProduct(quantity: real, approved: real, distance: real, budget: real, rounded: real, tick: real)
    requires approved * distance == budget
    requires 0.0 < quantity <= approved && 0.0 < distance && rounded < distance + tick
    ensures quantity * rounded < budget + quantity * tick
  {
    var slack, spare := distance + tick - rounded, approved - quantity;
    assert slack * quantity > 0.0 && spare * distance >= 0.0;
    calc {
      budget + quantity * tick - quantity * rounded;
    == approved * distance + quantity * tick - quantity * rounded;
    == spare * distance + quantity * distance + quantity * tick - quantity * rounded;
    == spare * distance + slack * quantity;
    }
  }

  lemma RoundedLoss(quantity: real, approved: real, distance: real, budget: real, entry: real, stop: real, tick: real)
    requires approved * distance == budget
    requires 0.0 < quantity <= approved && 0.0 < distance && Abs(entry - stop) < distance + tick
    ensures LossBounded(quantity, entry, stop, budget, tick)
  {
    hide Abs;
    RoundedProduct(quantity, approved, distance, budget, Abs(entry - stop), tick);
  }

  /** Loss contract: sizing gives approved * |trigger - rawStop| = budget; after both roundings, a
      position filled at the trigger price loses at its stop at most the budget plus one tick a unit. */
  lemma LossWithinBudget(rules: Rules, direction: Direction, trigger: real, rawStop: real, budget: real, approved: real)
    requires rules.Valid() && StopOnLosingSide(direction, trigger, rawStop)
    requires approved * Abs(trigger - rawStop) == budget
    ensures var quantity := NormalizeMarketQuantity(rules, approved);
      var stop := NormalizeProtectivePrice(rules, rawStop, direction, true);
      quantity.Ok? && stop.Ok? ==>
        && StopOnLosingSide(direction, trigger, stop.value)
        && LossBounded(quantity.value, trigger, stop.value, budget, rules.priceTick)
  {
    hide NormalizeMarketQuantity, NormalizeProtectivePrice, RoundDown, Steps, IsMultiple, LossBounded;
    var quantity := NormalizeMarketQuantity(rules, approved);
    var stop := NormalizeProtectivePrice(rules, rawStop, direction, true);
    MarketQuantityIsGreatestStep(rules, approved);
    ProtectivePriceMovesAway(rules, rawStop, direction, true);
    if quantity.Ok? && stop.Ok? {
      var q := quantity.value;
      var distance := Abs(trigger - rawStop);
      RoundedLoss(q, approved, distance, budget, trigger, stop.value, rules.priceTick);
    }
  }
}
