/** The risk engine's greedy allocation of slots, margin and symbols (app/services/risk.py). */
module RiskAllocator {
  import opened Trading
  import ER = ExchangeRules

  datatype Lifecycle = Watch | Active | Terminal
  datatype Grade = APlus | A | BPlus | Reject

  datatype Signal = Signal(
    id: string, symbol: string, direction: Direction, lifecycle: Lifecycle, grade: Grade,
    entry: real, stop: Option<real>)

  datatype Reason =
    | GradeNotExecutable | StopLossMissing | StopLossInvalid
    | SnapshotUnavailable(code: string) | PrivateApiNotConfigured
    | AccountCannotTrade | BalanceUnavailable | RiskPercentNotConfigured | MaxExposureNotConfigured
    | DailyLossLimitReached | DailyProfitLockReached
    | SameSymbolPosition | ConflictingSymbolPosition | MaxOpenTradesReached
    | LeverageUnavailable | MaxExposureReached | BalanceInsufficient

  datatype Policy = Policy(
    riskPercent: real, maxExposure: real, maxOpenTrades: int, dailyLossPercent: real, dailyProfitPercent: real)

  datatype Snapshot = Snapshot(
    canTrade: bool, wallet: real, available: real, exposure: real, dailyPercent: real,
    positions: seq<(string, Direction)>, leverage: map<string, int>)

  datatype Sizing = Sizing(budget: real, distance: real, quantity: real, notional: real, margin: real)

  datatype Decision = Watching | Ended | Blocked(reason: Reason) | Approved(sizing: Sizing)
  datatype Assessment = Assessment(signal: Signal, decision: Decision)

  // ---------------------------------------------------------------- per-signal checks

  function ContractRejection(signal: Signal): Option<Reason> {
    if signal.grade != APlus && signal.grade != A then Some(GradeNotExecutable)
    else if signal.stop.None? then Some(StopLossMissing)
    else if signal.direction == Long then (if signal.stop.value >= signal.entry then Some(StopLossInvalid) else None)
    else if signal.stop.value <= signal.entry then Some(StopLossInvalid)
    else None
  }

  function GlobalLock(policy: Policy, snapshot: Option<Snapshot>, error: Option<string>): Option<Reason> {
    if error.Some? then Some(SnapshotUnavailable(error.value))
    else if snapshot.None? then Some(PrivateApiNotConfigured)
    else
      var s := snapshot.value;
      if !s.canTrade then Some(AccountCannotTrade)
      else if s.wallet <= 0.0 then Some(BalanceUnavailable)
      else if policy.riskPercent <= 0.0 then Some(RiskPercentNotConfigured)
      else if policy.maxExposure <= 0.0 then Some(MaxExposureNotConfigured)
      else if policy.dailyLossPercent > 0.0 && s.dailyPercent <= -policy.dailyLossPercent then Some(DailyLossLimitReached)
      else if policy.dailyProfitPercent > 0.0 && s.dailyPercent >= policy.dailyProfitPercent then Some(DailyProfitLockReached)
      else None
  }

  function OpenDirection(positions: seq<(string, Direction)>, symbol: string): Option<Direction> {
    if positions == [] then None
    else if positions[0].0 == symbol then Some(positions[0].1)
    else OpenDirection(positions[1..], symbol)
  }

  /** Quantity that loses exactly the budget at the stop; the contract check makes the distance positive. */
  function PositionSizing(policy: Policy, snapshot: Snapshot, signal: Signal, leverage: int): Sizing
    requires ContractRejection(signal).None? && leverage >= 1
  {
    var distance := Abs(signal.entry - signal.stop.value);
    var budget := snapshot.wallet * policy.riskPercent / 100.0;
    var quantity := budget / distance;
    var notional := quantity * signal.entry;
    Sizing(budget, distance, quantity, notional, notional / leverage as real)
  }

  /** What has been given away so far. */
  datatype Ledger = Ledger(slots: nat, margin: real, symbols: map<string, Direction>, out: seq<Assessment>)

  function SymbolClash(holder: Direction, signal: Signal): Reason {
    if holder == signal.direction then SameSymbolPosition else ConflictingSymbolPosition
  }

  function Decide(policy: Policy, snapshot: Option<Snapshot>, error: Option<string>, ledger: Ledger, signal: Signal): Decision {
    var contract := ContractRejection(signal);
    var lock := GlobalLock(policy, snapshot, error);
    if signal.lifecycle == Watch then Watching
    else if signal.lifecycle != Active then Ended
    else if contract.Some? then Blocked(contract.value)
    else if lock.Some? then Blocked(lock.value)
    else
      var s := snapshot.value;
      var held := OpenDirection(s.positions, signal.symbol);
      if held.Some? then Blocked(SymbolClash(held.value, signal))
      else if signal.symbol in ledger.symbols then Blocked(SymbolClash(ledger.symbols[signal.symbol], signal))
      else if |s.positions| + ledger.slots >= policy.maxOpenTrades then Blocked(MaxOpenTradesReached)
      else if signal.symbol !in s.leverage || s.leverage[signal.symbol] < 1 then Blocked(LeverageUnavailable)
      else
        var sizing := PositionSizing(policy, s, signal, s.leverage[signal.symbol]);
        if s.exposure + ledger.margin + sizing.margin > policy.maxExposure then Blocked(MaxExposureReached)
        else if sizing.margin > s.available - ledger.margin then Blocked(BalanceInsufficient)
        else Approved(sizing)
  }

  function Record(ledger: Ledger, signal: Signal, decision: Decision): Ledger {
    var out := ledger.out + [Assessment(signal, decision)];
    if decision.Approved? then
      Ledger(ledger.slots + 1, ledger.margin + decision.sizing.margin, ledger.symbols[signal.symbol := signal.direction], out)
    else ledger.(out := out)
  }

  /** The allocation after the first signals, in their order. */
  function Allocate(policy: Policy, snapshot: Option<Snapshot>, error: Option<string>, signals: seq<Signal>): Ledger {
    if signals == [] then Ledger(0, 0.0, map[], [])
    else
      var before := Allocate(policy, snapshot, error, signals[..|signals| - 1]);
      var signal := signals[|signals| - 1];
      Record(before, signal, Decide(policy, snapshot, error, before, signal))
  }

  /** The source's loop over signals with its three running reservations. */
  method BuildAssessments(policy: Policy, snapshot: Option<Snapshot>, error: Option<string>, signals: seq<Signal>)
    returns (assessments: seq<Assessment>)
    ensures assessments == Allocate(policy, snapshot, error, signals).out
    ensures |assessments| == |signals|
    ensures forall i :: 0 <= i < |signals| ==> assessments[i].signal == signals[i]
  {
    hide Decide;
    var slots: nat, margin, symbols := 0, 0.0, map[];
    assessments := [];
    for i := 0 to |signals|
      invariant Allocate(policy, snapshot, error, signals[..i]) == Ledger(slots, margin, symbols, assessments)
      invariant |assessments| == i
      invariant forall j :: 0 <= j < i ==> assessments[j].signal == signals[j]
    {
      var signal := signals[i];
      var decision := Decide(policy, snapshot, error, Ledger(slots, margin, symbols, assessments), signal);
      if decision.Approved? {
        slots := slots + 1;
        margin := margin + decision.sizing.margin;
        symbols := symbols[signal.symbol := signal.direction];
      }
      assessments := assessments + [Assessment(signal, decision)];
      assert signals[..i + 1][..i] == signals[..i];
    }
    assert signals[..|signals|] == signals;
  }

  // ---------------------------------------------------------------- reference: read off the answer alone

  function ApprovedMargin(assessments: seq<Assessment>): real {
    if assessments == [] then 0.0
    else
      var last := assessments[|assessments| - 1];
      ApprovedMargin(assessments[..|assessments| - 1]) + (if last.decision.Approved? then last.decision.sizing.margin else 0.0)
  }

  function ApprovedSymbols(assessments: seq<Assessment>): seq<string> {
    if assessments == [] then []
    else
      var last := assessments[|assessments| - 1];
      ApprovedSymbols(assessments[..|assessments| - 1]) + (if last.decision.Approved? then [last.signal.symbol] else [])
  }

  predicate Holds(positions: seq<(string, Direction)>, symbol: string) {
    exists p :: p in positions && p.0 == symbol
  }

  lemma {:induction false} OpenDirectionFindsHolders(positions: seq<(string, Direction)>, symbol: string)
    ensures OpenDirection(positions, symbol).Some? <==> Holds(positions, symbol)
  {
    if positions != [] && positions[0].0 != symbol {
      OpenDirectionFindsHolders(positions[1..], symbol);
      if Holds(positions, symbol) {
        var p :| p in positions && p.0 == symbol;
        assert p in positions[1..];
      }
      if Holds(positions[1..], symbol) {
        var p :| p in positions[1..] && p.0 == symbol;
        assert p in positions;
      }
    }
  }

  ghost predicate Distinct(symbols: seq<string>) {
    forall i, j :: 0 <= i < j < |symbols| ==> symbols[i] != symbols[j]
  }

  /** A ledger whose reservations are exactly what its answer says. */
  ghost predicate Consistent(ledger: Ledger) {
    && ledger.margin == ApprovedMargin(ledger.out)
    && ledger.slots == |ApprovedSymbols(ledger.out)|
    && (forall symbol: string :: symbol in ledger.symbols <==> symbol in ApprovedSymbols(ledger.out))
  }

  lemma NothingReserved()
    ensures Consistent(Ledger(0, 0.0, map[], [])) && Distinct(ApprovedSymbols([]))
  {
  }

  lemma ApprovedSymbolIsNew(policy: Policy, snapshot: Option<Snapshot>, error: Option<string>, ledger: Ledger, signal: Signal)
    requires Decide(policy, snapshot, error, ledger, signal).Approved?
    ensures signal.symbol !in ledger.symbols
  {
    hide PositionSizing, GlobalLock, ContractRejection, OpenDirection;
  }

  lemma RecordKeepsConsistent(ledger: Ledger, signal: Signal, decision: Decision)
    requires Consistent(ledger) && Distinct(ApprovedSymbols(ledger.out))
    requires decision.Approved? ==> signal.symbol !in ledger.symbols
    ensures var after := Record(ledger, signal, decision); Consistent(after) && Distinct(ApprovedSymbols(after.out))
  {
    var after := Record(ledger, signal, decision);
    assert after.out[..|after.out| - 1] == ledger.out;
  }

  /** The running reservations are exactly what the answer so far says. */
  lemma {:induction false} ReservationsMatchAnswer(policy: Policy, snapshot: Option<Snapshot>, error: Option<string>, signals: seq<Signal>)
    ensures var ledger := Allocate(policy, snapshot, error, signals);
      Consistent(ledger) && Distinct(ApprovedSymbols(ledger.out))
  {
    hide Decide, Record, Consistent, Distinct, ApprovedSymbols, ApprovedMargin;
    if signals == [] {
      NothingReserved();
    } else {
      var init, last := signals[..|signals| - 1], signals[|signals| - 1];
      ReservationsMatchAnswer(policy, snapshot, error, init);
      var before := Allocate(policy, snapshot, error, init);
      var decision := Decide(policy, snapshot, error, before, last);
      if decision.Approved? { ApprovedSymbolIsNew(policy, snapshot, error, before, last); }
      RecordKeepsConsistent(before, last, decision);
    }
  }

  /** Sizing is exact: quantity times stop distance is the per-trade budget. */
  lemma SizingSpendsTheBudget(policy: Policy, snapshot: Snapshot, signal: Signal, leverage: int)
    requires ContractRejection(signal).None? && leverage >= 1
    ensures var sizing := PositionSizing(policy, snapshot, signal, leverage);
      && sizing.distance == Abs(signal.entry - signal.stop.value) > 0.0
      && sizing.quantity * sizing.distance == sizing.budget
      && sizing.margin * leverage as real == sizing.quantity * signal.entry
      && ER.StopOnLosingSide(signal.direction, signal.entry, signal.stop.value)
  {
  }

  /** The signal itself can be sized: grade A+ or A, with a stop strictly on the losing side of its entry. */
  ghost predicate Sizable(signal: Signal) {
    && (signal.grade == APlus || signal.grade == A) && signal.stop.Some?
    && (if signal.direction == Long then signal.stop.value < signal.entry else signal.entry < signal.stop.value)
  }

  /** The account may trade: a snapshot without an error, permission, a balance, a configured risk and exposure, and the
      daily result strictly between the configured loss limit and the configured profit lock. */
  ghost predicate Unlocked(policy: Policy, snapshot: Option<Snapshot>, error: Option<string>) {
    && error.None? && snapshot.Some?
    && snapshot.value.canTrade && snapshot.value.wallet > 0.0
    && policy.riskPercent > 0.0 && policy.maxExposure > 0.0
    && (policy.dailyLossPercent > 0.0 ==> snapshot.value.dailyPercent > -policy.dailyLossPercent)
    && (policy.dailyProfitPercent > 0.0 ==> snapshot.value.dailyPercent < policy.dailyProfitPercent)
  }

  lemma SizableExactly(signal: Signal)
    ensures ContractRejection(signal).None? <==> Sizable(signal)
  {
  }

  lemma UnlockedExactly(policy: Policy, snapshot: Option<Snapshot>, error: Option<string>)
    ensures GlobalLock(policy, snapshot, error).None? <==> Unlocked(policy, snapshot, error)
  {
  }

  /** The margin of a position that loses the configured percentage of the wallet at its stop. */
  ghost function RequiredMargin(policy: Policy, snapshot: Snapshot, signal: Signal, leverage: int): real
    requires Sizable(signal) && leverage >= 1
  {
    snapshot.wallet * policy.riskPercent / 100.0 / Abs(signal.entry - signal.stop.value) * signal.entry / leverage as real
  }

  /** What a newcomer needs, given only the answer to the signals before it. */
  ghost predicate Fits(policy: Policy, snapshot: Option<Snapshot>, error: Option<string>, earlier: seq<Assessment>, signal: Signal) {
    && signal.lifecycle == Active && Sizable(signal) && Unlocked(policy, snapshot, error)
    && var s := snapshot.value;
    && !Holds(s.positions, signal.symbol) && signal.symbol !in ApprovedSymbols(earlier)
    && |s.positions| + |ApprovedSymbols(earlier)| < policy.maxOpenTrades
    && signal.symbol in s.leverage && s.leverage[signal.symbol] >= 1
    && var margin := RequiredMargin(policy, s, signal, s.leverage[signal.symbol]);
    && s.exposure + ApprovedMargin(earlier) + margin <= policy.maxExposure
    && ApprovedMargin(earlier) + margin <= s.available
  }

  lemma {:induction false} AnswersArePrefixStable(policy: Policy, snapshot: Option<Snapshot>, error: Option<string>, signals: seq<Signal>, k: nat)
    requires k <= |signals|
    ensures var out := Allocate(policy, snapshot, error, signals).out;
      |out| == |signals| && out[..k] == Allocate(policy, snapshot, error, signals[..k]).out
    decreases |signals|
  {
    if k == |signals| {
      assert signals[..k] == signals;
      if signals != [] { AnswersArePrefixStable(policy, snapshot, error, signals[..|signals| - 1], |signals| - 1); }
    } else {
      AnswersArePrefixStable(policy, snapshot, error, signals[..|signals| - 1], k);
      assert signals[..|signals| - 1][..k] == signals[..k];
    }
  }

  /** Loss at the stop is the configured percentage of the wallet. */
  predicate SpendsBudget(policy: Policy, snapshot: Snapshot, signal: Signal, sizing: Sizing) {
    && sizing.budget == snapshot.wallet * policy.riskPercent / 100.0
    && signal.stop.Some? && sizing.distance == Abs(signal.entry - signal.stop.value)
    && sizing.quantity * sizing.distance == sizing.budget
    && sizing.notional == sizing.quantity * signal.entry
    && signal.symbol in snapshot.leverage && sizing.margin * snapshot.leverage[signal.symbol] as real == sizing.notional
  }

  lemma DecideApprovesWhatFits(policy: Policy, snapshot: Option<Snapshot>, error: Option<string>, ledger: Ledger, signal: Signal)
    requires Consistent(ledger)
    ensures var decision := Decide(policy, snapshot, error, ledger, signal);
      && (decision.Approved? <==> Fits(policy, snapshot, error, ledger.out, signal))
      && (decision.Approved? ==> decision.sizing == PositionSizing(policy, snapshot.value, signal, snapshot.value.leverage[signal.symbol]))
  {
    SizableExactly(signal);
    UnlockedExactly(policy, snapshot, error);
    if snapshot.Some? { OpenDirectionFindsHolders(snapshot.value.positions, signal.symbol); }
    if Sizable(signal) && Unlocked(policy, snapshot, error) && signal.symbol in snapshot.value.leverage && snapshot.value.leverage[signal.symbol] >= 1 {
      MarginOf(policy, snapshot.value, signal, snapshot.value.leverage[signal.symbol]);
    }
    hide PositionSizing, RequiredMargin, Holds, OpenDirection, Sizable, Unlocked, ContractRejection, GlobalLock;
  }

  lemma MarginOf(policy: Policy, snapshot: Snapshot, signal: Signal, leverage: int)
    requires Sizable(signal) && ContractRejection(signal).None? && leverage >= 1
    ensures PositionSizing(policy, snapshot, signal, leverage).margin == RequiredMargin(policy, snapshot, signal, leverage)
  {
  }

  /** Greedy and exact: the k-th signal is approved exactly when it fits beside the approvals before it, and
      then it is sized so that its loss at the stop is the budget. */
  lemma ApprovedExactlyWhenItFits(policy: Policy, snapshot: Option<Snapshot>, error: Option<string>, signals: seq<Signal>, k: nat)
    requires k < |signals|
    ensures var out := Allocate(policy, snapshot, error, signals).out;
      && |out| == |signals| && out[k].signal == signals[k]
      && (out[k].decision.Approved? <==> Fits(policy, snapshot, error, out[..k], signals[k]))
      && (out[k].decision.Approved? ==> SpendsBudget(policy, snapshot.value, signals[k], out[k].decision.sizing))
  {
    hide Decide, Fits, PositionSizing, ApprovedSymbols, ApprovedMargin, SpendsBudget;
    AnswersArePrefixStable(policy, snapshot, error, signals, k);
    AnswersArePrefixStable(policy, snapshot, error, signals, k + 1);
    var before := Allocate(policy, snapshot, error, signals[..k]);
    assert signals[..k + 1][..k] == signals[..k];
    ReservationsMatchAnswer(policy, snapshot, error, signals[..k]);
    DecideApprovesWhatFits(policy, snapshot, error, before, signals[k]);
    if Decide(policy, snapshot, error, before, signals[k]).Approved? {
      FitsMeansSized(policy, snapshot, error, before.out, signals[k]);
      SizableExactly(signals[k]);
      BudgetOf(policy, snapshot.value, signals[k]);
    }
  }

  lemma FitsMeansSized(policy: Policy, snapshot: Option<Snapshot>, error: Option<string>, earlier: seq<Assessment>, signal: Signal)
    requires Fits(policy, snapshot, error, earlier, signal)
    ensures Sizable(signal) && snapshot.Some?
    ensures signal.symbol in snapshot.value.leverage && snapshot.value.leverage[signal.symbol] >= 1
  {
  }

  lemma BudgetOf(policy: Policy, snapshot: Snapshot, signal: Signal)
    requires ContractRejection(signal).None? && signal.symbol in snapshot.leverage && snapshot.leverage[signal.symbol] >= 1
    ensures SpendsBudget(policy, snapshot, signal, PositionSizing(policy, snapshot, signal, snapshot.leverage[signal.symbol]))
  {
    SizingSpendsTheBudget(policy, snapshot, signal, snapshot.leverage[signal.symbol]);
  }

  lemma UnlockedHasSnapshot(policy: Policy, snapshot: Option<Snapshot>, error: Option<string>)
    ensures Unlocked(policy, snapshot, error) ==> snapshot.Some?
  {
  }

  lemma ApprovalMeets(policy: Policy, snapshot: Option<Snapshot>, error: Option<string>, ledger: Ledger, signal: Signal)
    ensures var decision := Decide(policy, snapshot, error, ledger, signal);
      decision.Approved? ==>
        && Unlocked(policy, snapshot, error)
        && snapshot.value.exposure + (ledger.margin + decision.sizing.margin) <= policy.maxExposure
        && ledger.margin + decision.sizing.margin <= snapshot.value.available
        && |snapshot.value.positions| + ledger.slots < policy.maxOpenTrades
        && signal.symbol !in ledger.symbols && !Holds(snapshot.value.positions, signal.symbol)
  {
    UnlockedExactly(policy, snapshot, error);
    UnlockedHasSnapshot(policy, snapshot, error);
    hide PositionSizing, Holds, GlobalLock, Unlocked, OpenDirection, ContractRejection;
    if snapshot.Some? { OpenDirectionFindsHolders(snapshot.value.positions, signal.symbol); }
  }

  /** Whenever anything is approved the whole answer is within every limit. */
  lemma {:induction false} ApprovalsStayWithinLimits(policy: Policy, snapshot: Option<Snapshot>, error: Option<string>, signals: seq<Signal>)
    ensures var out := Allocate(policy, snapshot, error, signals).out;
      ApprovedSymbols(out) != [] ==>
        && error.None? && snapshot.Some? && snapshot.value.canTrade && snapshot.value.wallet > 0.0
        && policy.riskPercent > 0.0 && policy.maxExposure > 0.0
        && (policy.dailyLossPercent > 0.0 ==> snapshot.value.dailyPercent > -policy.dailyLossPercent)
        && (policy.dailyProfitPercent > 0.0 ==> snapshot.value.dailyPercent < policy.dailyProfitPercent)
        && snapshot.value.exposure + ApprovedMargin(out) <= policy.maxExposure
        && ApprovedMargin(out) <= snapshot.value.available
        && |snapshot.value.positions| + |ApprovedSymbols(out)| <= policy.maxOpenTrades
        && Distinct(ApprovedSymbols(out))
        && forall symbol :: symbol in ApprovedSymbols(out) ==> !Holds(snapshot.value.positions, symbol)
  {
    if signals != [] {
      var before := Allocate(policy, snapshot, error, signals[..|signals| - 1]);
      var signal := signals[|signals| - 1];
      var after := Allocate(policy, snapshot, error, signals);
      ApprovalsStayWithinLimits(policy, snapshot, error, signals[..|signals| - 1]);
      ReservationsMatchAnswer(policy, snapshot, error, signals[..|signals| - 1]);
      ReservationsMatchAnswer(policy, snapshot, error, signals);
      ApprovalMeets(policy, snapshot, error, before, signal);
      hide Decide, Holds, GlobalLock;
      assert after.out[..|after.out| - 1] == before.out;
    }
  }

  /** What each reason claims, given the answer to the signals before. */
  ghost predicate Applies(reason: Reason, policy: Policy, snapshot: Option<Snapshot>, error: Option<string>, earlier: seq<Assessment>, signal: Signal) {
    match reason
    case GradeNotExecutable => signal.grade == BPlus || signal.grade == Reject
    case StopLossMissing => signal.stop.None?
    case StopLossInvalid => signal.stop.Some? && (if signal.direction == Long then signal.stop.value >= signal.entry else signal.stop.value <= signal.entry)
    case SnapshotUnavailable(code) => error == Some(code)
    case PrivateApiNotConfigured => snapshot.None?
    case AccountCannotTrade => snapshot.Some? && !snapshot.value.canTrade
    case BalanceUnavailable => snapshot.Some? && snapshot.value.wallet <= 0.0
    case RiskPercentNotConfigured => policy.riskPercent <= 0.0
    case MaxExposureNotConfigured => policy.maxExposure <= 0.0
    case DailyLossLimitReached => snapshot.Some? && policy.dailyLossPercent > 0.0 && snapshot.value.dailyPercent <= -policy.dailyLossPercent
    case DailyProfitLockReached => snapshot.Some? && policy.dailyProfitPercent > 0.0 && snapshot.value.dailyPercent >= policy.dailyProfitPercent
    case SameSymbolPosition => snapshot.Some? && (Taken(snapshot.value, earlier, signal.symbol, signal.direction))
    case ConflictingSymbolPosition => snapshot.Some? && (Taken(snapshot.value, earlier, signal.symbol, signal.direction.Opposite()))
    case MaxOpenTradesReached => snapshot.Some? && |snapshot.value.positions| + |ApprovedSymbols(earlier)| >= policy.maxOpenTrades
    case LeverageUnavailable => snapshot.Some? && (signal.symbol !in snapshot.value.leverage || snapshot.value.leverage[signal.symbol] < 1)
    case MaxExposureReached =>
      && snapshot.Some? && Sizable(signal) && signal.symbol in snapshot.value.leverage && snapshot.value.leverage[signal.symbol] >= 1
      && snapshot.value.exposure + ApprovedMargin(earlier) + RequiredMargin(policy, snapshot.value, signal, snapshot.value.leverage[signal.symbol]) > policy.maxExposure
    case BalanceInsufficient =>
      && snapshot.Some? && Sizable(signal) && signal.symbol in snapshot.value.leverage && snapshot.value.leverage[signal.symbol] >= 1
      && ApprovedMargin(earlier) + RequiredMargin(policy, snapshot.value, signal, snapshot.value.leverage[signal.symbol]) > snapshot.value.available
  }

  /** A position, or an approval before this signal, holds the symbol in this direction. */
  ghost predicate Taken(snapshot: Snapshot, earlier: seq<Assessment>, symbol: string, direction: Direction) {
    || (symbol, direction) in snapshot.positions
    || exists i :: 0 <= i < |earlier| && earlier[i].decision.Approved? && earlier[i].signal.symbol == symbol && earlier[i].signal.direction == direction
  }

  lemma {:induction false} OpenDirectionHolds(positions: seq<(string, Direction)>, symbol: string)
    ensures var held := OpenDirection(positions, symbol); held.Some? ==> (symbol, held.value) in positions
  {
    if positions != [] && positions[0].0 != symbol { OpenDirectionHolds(positions[1..], symbol); }
  }

  /** Every reserved symbol was approved before, in the reserved direction. */
  lemma {:induction false} ReservedWasApproved(policy: Policy, snapshot: Option<Snapshot>, error: Option<string>, signals: seq<Signal>, symbol: string)
    ensures var ledger := Allocate(policy, snapshot, error, signals);
      symbol in ledger.symbols ==>
        exists i :: 0 <= i < |ledger.out| && ledger.out[i].decision.Approved? && ledger.out[i].signal.symbol == symbol && ledger.out[i].signal.direction == ledger.symbols[symbol]
  {
    hide Decide;
    if signals != [] {
      var before := Allocate(policy, snapshot, error, signals[..|signals| - 1]);
      var after := Allocate(policy, snapshot, error, signals);
      ReservedWasApproved(policy, snapshot, error, signals[..|signals| - 1], symbol);
      assert after.out[..|before.out|] == before.out;
      if symbol in after.symbols {
        if after.out[|before.out|].decision.Approved? && signals[|signals| - 1].symbol == symbol {
          assert after.symbols[symbol] == signals[|signals| - 1].direction;
        } else {
          assert symbol in before.symbols && after.symbols[symbol] == before.symbols[symbol];
          var i :| 0 <= i < |before.out| && before.out[i].decision.Approved? && before.out[i].signal.symbol == symbol
            && before.out[i].signal.direction == before.symbols[symbol];
          assert after.out[i] == before.out[i];
        }
      }
    }
  }

  /** A signal is blocked only for a reason that is true of it: nothing that fits is turned away, and the reason given holds. */
  lemma BlockedForATrueReason(policy: Policy, snapshot: Option<Snapshot>, error: Option<string>, signals: seq<Signal>, k: nat)
    requires k < |signals|
    ensures var out := Allocate(policy, snapshot, error, signals).out;
      && |out| == |signals|
      && (out[k].decision.Blocked? ==>
            signals[k].lifecycle == Active && Applies(out[k].decision.reason, policy, snapshot, error, out[..k], signals[k]))
      && (out[k].decision.Watching? <==> signals[k].lifecycle == Watch) && (out[k].decision.Ended? <==> signals[k].lifecycle == Terminal)
  {
    hide Decide, Applies, ApprovedSymbols, ApprovedMargin;
    AnswersArePrefixStable(policy, snapshot, error, signals, k);
    AnswersArePrefixStable(policy, snapshot, error, signals, k + 1);
    assert signals[..k + 1][..k] == signals[..k];
    ReservationsMatchAnswer(policy, snapshot, error, signals[..k]);
    ReservedWasApproved(policy, snapshot, error, signals[..k], signals[k].symbol);
    ReasonApplies(policy, snapshot, error, Allocate(policy, snapshot, error, signals[..k]), signals[k]);
  }

  lemma ReasonApplies(policy: Policy, snapshot: Option<Snapshot>, error: Option<string>, ledger: Ledger, signal: Signal)
    requires Consistent(ledger)
    requires signal.symbol in ledger.symbols ==>
      exists i :: 0 <= i < |ledger.out| && ledger.out[i].decision.Approved? && ledger.out[i].signal.symbol == signal.symbol && ledger.out[i].signal.direction == ledger.symbols[signal.symbol]
    ensures var decision := Decide(policy, snapshot, error, ledger, signal);
      && (decision.Blocked? ==> signal.lifecycle == Active && Applies(decision.reason, policy, snapshot, error, ledger.out, signal))
      && (decision.Watching? <==> signal.lifecycle == Watch) && (decision.Ended? <==> signal.lifecycle == Terminal)
  {
    if snapshot.Some? { OpenDirectionHolds(snapshot.value.positions, signal.symbol); }
    SizableExactly(signal);
    if Sizable(signal) && snapshot.Some? && signal.symbol in snapshot.value.leverage && snapshot.value.leverage[signal.symbol] >= 1 {
      MarginOf(policy, snapshot.value, signal, snapshot.value.leverage[signal.symbol]);
    }
    hide PositionSizing, RequiredMargin, OpenDirection, ApprovedSymbols, ApprovedMargin;
  }

  /** Rounding an exactly sized position keeps its budget, up to one tick per unit. */
  lemma SizedLossAfterRounding(rules: ER.Rules, direction: Direction, entry: real, stop: real, sizing: Sizing)
    requires rules.Valid() && ER.StopOnLosingSide(direction, entry, stop)
    requires sizing.quantity * sizing.distance == sizing.budget && sizing.distance == Abs(entry - stop)
    ensures var quantity := ER.NormalizeMarketQuantity(rules, sizing.quantity);
      var rounded := ER.NormalizeProtectivePrice(rules, stop, direction, true);
      quantity.Ok? && rounded.Ok? ==>
        && quantity.value <= sizing.quantity
        && ER.LossBounded(quantity.value, entry, rounded.value, sizing.budget, rules.priceTick)
  {
    hide *;
    ER.MarketQuantityIsGreatestStep(rules, sizing.quantity);
    ER.LossWithinBudget(rules, direction, entry, stop, sizing.budget, sizing.quantity);
  }

  /** From approval to the exchange: after quantity and stop are normalised, a position filled at its
      trigger loses at the stop less than the per-trade budget plus one tick per unit. */
  lemma ApprovedLossAfterRounding(policy: Policy, snapshot: Snapshot, signal: Signal, rules: ER.Rules)
    requires rules.Valid() && ContractRejection(signal).None? && signal.symbol in snapshot.leverage && snapshot.leverage[signal.symbol] >= 1
    ensures var sizing := PositionSizing(policy, snapshot, signal, snapshot.leverage[signal.symbol]);
      var quantity := ER.NormalizeMarketQuantity(rules, sizing.quantity);
      var stop := ER.NormalizeProtectivePrice(rules, signal.stop.value, signal.direction, true);
      quantity.Ok? && stop.Ok? ==>
        && quantity.value <= sizing.quantity
        && ER.LossBounded(quantity.value, signal.entry, stop.value, sizing.budget, rules.priceTick)
        && SpendsBudget(policy, snapshot, signal, sizing)
  {
    var leverage := snapshot.leverage[signal.symbol];
    var sizing := PositionSizing(policy, snapshot, signal, leverage);
    SizingSpendsTheBudget(policy, snapshot, signal, leverage);
    BudgetOf(policy, snapshot, signal);
    hide PositionSizing, SpendsBudget, ER.NormalizeMarketQuantity, ER.NormalizeProtectivePrice, ER.LossBounded;
    SizedLossAfterRounding(rules, signal.direction, signal.entry, signal.stop.value, sizing);
  }
}
