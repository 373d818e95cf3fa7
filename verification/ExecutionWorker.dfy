/** The repository object and the single worker that drives a claimed command to its end
    (app/services/execution_worker.py). */
module ExecutionWorker {
  import opened Trading
  import opened CommandQueue
  import EP = EntryProtocol
  import EM = ExchangeModel
  import ER = ExchangeRules

  lemma TransitStep(store: Store, id: string, to: State, reason: string, at: int, updates: Updates)
    requires id in store && SoundStore(store) && to != State.Claimed && updates.claim.None?
    ensures var after := Next(store, Transit(id, to, reason, at, updates));
      var legal := to == store[id].row.state || to in Allowed(store[id].row.state);
      && SoundStore(after) && OnlyTouched(store, after, id)
      && (legal ==> after[id].row.state == to)
      && (to in Allowed(store[id].row.state) ==> Moved(store[id].row, after[id].row, to, updates))
      && (!legal ==> after == store)
  {
    hide ApplyTransition, Sound, Moved, Written, Allowed, Edge;
    StepSound(store, Transit(id, to, reason, at, updates));
    TransitionSound(id, store[id], to, reason, at, updates);
    SoundEach(store, id);
    if to in Allowed(store[id].row.state) { TransitionMoves(id, store[id], to, reason, at, updates); }
  }

  /** What the worker relies on of a written transition. */
  ghost predicate Moved(before: Row, after: Row, to: State, updates: Updates) {
    && after.state == to
    && after.failure == (if updates.failure.Some? then updates.failure.value else before.payload.failure)
    && after.failure == after.payload.failure
    && after.payload.entryOrder == (if updates.entryOrder.Some? then updates.entryOrder else before.payload.entryOrder)
    && after.payload.stopOrder == (if updates.stopOrder.Some? then updates.stopOrder else before.payload.stopOrder)
    && after.payload.takeOrder == (if updates.takeOrder.Some? then updates.takeOrder else before.payload.takeOrder)
  }

  lemma TransitionMoves(id: string, entry: Entry, to: State, reason: string, at: int, updates: Updates)
    requires Sound(id, entry) && to in Allowed(entry.row.state)
    ensures var after := ApplyTransition(entry, to, reason, at, updates); after.Some? && Moved(entry.row, after.value.row, to, updates)
  {
    hide Sound, ApplyTransition;
    EdgeAllowed(entry.row.state, to);
    hide Allowed, Edge;
    TransitionWrites(id, entry, to, reason, at, updates);
  }

  lemma ProtectedPathEdges()
    ensures EntryConfirmed in Allowed(Submitting) && ProtectionPending in Allowed(EntryConfirmed)
    ensures Protected in Allowed(ProtectionPending) && Completed in Allowed(Protected)
    ensures RecoveryRequired in Allowed(Submitting) * Allowed(EntryConfirmed) * Allowed(ProtectionPending) * Allowed(Protected)
    ensures Blocked in Allowed(Submitting)
  {
  }

  lemma ClaimedEdges()
    ensures Submitting in Allowed(State.Claimed) && Blocked in Allowed(State.Claimed) && RecoveryRequired in Allowed(State.Claimed)
  {
  }

  lemma TouchingKeeps(store: Store, id: string)
    requires id in store
    ensures OnlyTouched(store, store, id)
  {
  }

  lemma ClaimStep(store: Store, chosen: string, worker: string, now: int, timeout: int)
    requires SoundStore(store) && OldestClaimable(ExpireDue(store, now), chosen, now, timeout)
    ensures var live := ExpireDue(store, now);
      var after := live[chosen := Reclaimed(live[chosen], chosen, worker, now)];
      && after == Next(store, ClaimNext(worker, now, timeout, chosen))
      && SoundStore(after) && Grows(store, after)
      && after[chosen].row.state == State.Claimed
      && after[chosen].row.payload.id == chosen && after[chosen].row.failure == None
      && (forall id :: id in after && id != chosen ==> id in store && after[id] == ExpiredIfDue(store[id], now))
      && after[chosen].row.payload.expiresAt > now
  {
    hide Reclaimed, Claimable, ExpiredIfDue, Chained, Numbered;
    ExpireDueSound(store, now);
    ClaimWrites(chosen, ExpireDue(store, now)[chosen], worker, now, timeout);
    ClaimSound(chosen, ExpireDue(store, now)[chosen], worker, now, timeout);
    StepSound(store, ClaimNext(worker, now, timeout, chosen));
  }

  /** The record waits for a worker, and no waiting record is older. */
  ghost predicate TakesOldest(store: Store, id: string, now: int, timeout: int) {
    && id in store && Waits(store[id].row, now, timeout)
    && forall other :: other in store && Waits(store[other].row, now, timeout) ==> store[id].row.createdAt <= store[other].row.createdAt
  }

  lemma NothingWaits(store: Store, now: int, timeout: int)
    requires SoundStore(store) && forall id :: id in ExpireDue(store, now) ==> !Claimable(ExpireDue(store, now)[id], now, timeout)
    ensures forall id :: id in store ==> !Waits(store[id].row, now, timeout)
  {
    hide Sound, Waits, ExpiredIfDue, Claimable;
    forall id | id in store ensures !Waits(store[id].row, now, timeout) {
      assert id in ExpireDue(store, now);
      ClaimableExactlyWhen(id, store[id], now, timeout);
      WaitsInWindow(store[id].row, now, timeout);
    }
  }

  class ExecutionCommandRepository {
    var store: Store

    constructor ()
      ensures store == map[] && SoundStore(store)
    {
      store := map[];
    }

    /** Insert once per idempotency key and return the durable command. */
    method CreateCommand(command: Command) returns (result: Result<Command, CreateError>)
      requires command.state == Pending && command.claim.None? && SoundStore(store)
      modifies this
      ensures store == Created(old(store), command) && SoundStore(store)
      ensures CreateAnswers(old(store), command, result)
      ensures result.Ok? ==> result.value.id in store && store[result.value.id].row.payload == result.value && result.value.key == command.key
    {
      StepSound(store, Create(command));
      if KeyTaken(store, command.key) {
        var id :| id in store && store[id].row.payload.key == command.key;
        return Ok(store[id].row.payload);
      }
      if Collides(store, command) { return Err(ConflictWithoutRow); }
      store := store[command.id := NewEntry(command)];
      result := Ok(command);
    }

    method Transition(id: string, to: State, reason: string, at: int, updates: Updates) returns (legal: bool)
      requires id in store && SoundStore(store) && to != State.Claimed && updates.claim.None?
      modifies this
      ensures store == Next(old(store), Transit(id, to, reason, at, updates)) && SoundStore(store)
      ensures legal <==> to == old(store)[id].row.state || to in Allowed(old(store)[id].row.state)
    {
      StepSound(store, Transit(id, to, reason, at, updates));
      var after := ApplyTransition(store[id], to, reason, at, updates);
      if after.None? { return false; }
      store := store[id := after.value];
      legal := true;
    }

    /** Expire everything due, row by row. */
    method ExpireAll(now: int)
      requires SoundStore(store)
      modifies this
      ensures store == ExpireDue(old(store), now) && SoundStore(store)
    {
      hide SoundStore, ExpiredIfDue;
      ghost var before := store;
      ExpireDueSound(store, now);
      var todo := store.Keys;
      while todo != {}
        invariant todo <= before.Keys == store.Keys
        invariant forall id :: id in store ==> store[id] == if id in todo then before[id] else ExpiredIfDue(before[id], now)
        decreases todo
      {
        var id :| id in todo;
        store := store[id := ExpiredIfDue(store[id], now)];
        todo := todo - {id};
      }
    }

    /** Claim one oldest claimable command, if any. */
    method ClaimOldest(worker: string, now: int, timeout: int) returns (claimed: Option<Command>)
      requires SoundStore(store)
      modifies this
      ensures SoundStore(store) && Grows(old(store), store)
      ensures claimed.None? ==> store == ExpireDue(old(store), now)
      ensures claimed.None? ==> forall id :: id in old(store) ==> !Waits(old(store)[id].row, now, timeout)
      ensures claimed.Some? ==>
        && claimed.value.id in store
        && OldestClaimable(ExpireDue(old(store), now), claimed.value.id, now, timeout)
        && TakesOldest(old(store), claimed.value.id, now, timeout)
        && store == Next(old(store), ClaimNext(worker, now, timeout, claimed.value.id))
        && store[claimed.value.id].row.state == State.Claimed
        && store[claimed.value.id].row.payload == claimed.value && store[claimed.value.id].row.failure == None
        && (forall id :: id in store && id != claimed.value.id ==> id in old(store) && store[id] == ExpiredIfDue(old(store)[id], now))
        && claimed.value.expiresAt > now
    {
      hide SoundStore, Claimable, ExpireDue, Sound, Reclaimed, Next, Waits;
      ghost var before := store;
      ExpireAll(now);
      var best: Option<string> := None;
      var todo := store.Keys;
      while todo != {}
        invariant todo <= store.Keys
        invariant best.Some? ==> best.value in store && Claimable(store[best.value], now, timeout)
        invariant forall id :: id in store && id !in todo && Claimable(store[id], now, timeout) ==>
          best.Some? && store[best.value].row.createdAt <= store[id].row.createdAt
        decreases todo
      {
        var id :| id in todo;
        if Claimable(store[id], now, timeout) && (best.None? || store[id].row.createdAt < store[best.value].row.createdAt) {
          best := Some(id);
        }
        todo := todo - {id};
      }
      if best.None? {
        ExpireDueSound(before, now);
        NothingWaits(before, now, timeout);
        return None;
      }
      OldestInFields(before, best.value, now, timeout);
      ClaimStep(before, best.value, worker, now, timeout);
      store := store[best.value := Reclaimed(store[best.value], best.value, worker, now)];
      claimed := Some(store[best.value].row.payload);
    }
  }

  // ---------------------------------------------------------------- validating the returned trade

  datatype TradeRecord = TradeRecord(
    signal: string, symbol: string, direction: Direction,
    clientId: string, stopClientId: string, takeClientId: string, status: string,
    executed: real, entryPrice: real, stopPrice: real, takeProfitPrice: real,
    entryOrder: string, stopOrder: string, takeOrder: string)

  function EntryId(signal: string): string { "af-e-" + Prefix(signal) }
  function StopId(signal: string): string { "af-s-" + Prefix(signal) }
  function TakeId(signal: string): string { "af-t-" + Prefix(signal) }
  function Prefix(signal: string): string { if |signal| <= 20 then signal else signal[..20] }

  /** The exact checks of the worker, in its order; None accepts. */
  function TradeConflict(command: Command, trade: TradeRecord): Option<string> {
    if trade.signal != command.signal then Some("EXCHANGE_SIGNAL_IDENTITY_CONFLICT")
    else if trade.symbol != command.symbol || trade.direction != command.direction then Some("EXCHANGE_TRADE_IDENTITY_CONFLICT")
    else if trade.clientId != EntryId(command.signal) then Some("ENTRY_CLIENT_ORDER_ID_CONFLICT")
    else if trade.stopClientId != StopId(command.signal) then Some("STOP_CLIENT_ORDER_ID_CONFLICT")
    else if trade.takeClientId != TakeId(command.signal) then Some("TAKE_PROFIT_CLIENT_ORDER_ID_CONFLICT")
    else if trade.status != "FILLED" then Some("ENTRY_FILL_NOT_VERIFIED")
    else if trade.executed <= 0.0 then Some("ENTRY_EXECUTED_QUANTITY_INVALID")
    else if trade.executed > command.approvedQuantity then Some("ENTRY_QUANTITY_EXCEEDS_APPROVAL")
    else if trade.stopOrder == "" || trade.takeOrder == "" then Some("PROTECTION_IDENTITY_MISSING")
    else if trade.takeProfitPrice != ER.TakeProfitTarget(command.direction, trade.entryPrice, trade.stopPrice, command.multiple)
      then Some("TAKE_PROFIT_R_MULTIPLE_CONFLICT")
    else None
  }

  /** The trade record the execution service builds from a filled, protected plan. */
  function RecordOf(trade: EP.Trade, entryOrder: string, stopOrder: string, takeOrder: string): TradeRecord {
    TradeRecord(
      trade.signal, trade.symbol, trade.direction,
      EntryId(trade.signal), StopId(trade.signal), TakeId(trade.signal), "FILLED",
      trade.executed, trade.entryPrice, trade.stopPrice, trade.takeProfitPrice, entryOrder, stopOrder, takeOrder)
  }

  /** A protected trade for this very command is accepted exactly when its raw take-profit target already
      lay on a price tick: rounding the target is what the worker's equality rejects. */
  lemma AcceptedExactlyOnTick(command: Command, plan: EP.Plan, fill: EP.Fill, protection: EP.Protection, entryOrder: string, stopOrder: string, takeOrder: string)
    requires plan.Valid() && 0.0 < fill.quantity <= command.approvedQuantity
    requires command.signal == plan.assessment.signal && command.symbol == plan.assessment.symbol
    requires command.direction == plan.assessment.direction && command.multiple == plan.multiple
    requires stopOrder != "" && takeOrder != ""
    requires var target := ER.TakeProfitTarget(command.direction, fill.price, plan.stop, plan.multiple);
      ER.NormalizeProtectivePrice(plan.rules, target, command.direction, false) == Ok(protection.takeProfit)
    ensures var target := ER.TakeProfitTarget(command.direction, fill.price, plan.stop, plan.multiple);
      TradeConflict(command, RecordOf(EP.TradeOf(plan, fill, protection), entryOrder, stopOrder, takeOrder)) ==
      if ER.IsMultiple(target, plan.rules.priceTick) then None else Some("TAKE_PROFIT_R_MULTIPLE_CONFLICT")
  {
    hide ER.TakeProfitTarget, EP.ScaledMargin;
    var target := ER.TakeProfitTarget(command.direction, fill.price, plan.stop, plan.multiple);
    ER.ProtectivePriceMovesAway(plan.rules, target, command.direction, false);
    if ER.IsMultiple(target, plan.rules.priceTick) {
      ER.MultipleIsFixed(target, plan.rules.priceTick);
    }
  }

  // ---------------------------------------------------------------- one worker cycle

  datatype Activation = Activated(trade: TradeRecord) | AppFailure(code: string) | UnexpectedFailure

  datatype Revalidation = Passed | Refused(code: string) | RevalidationRaised

  const LEADER_LOST := "EXECUTION_LEADER_LOST"
  const PERSISTENCE_FAILED := "EXECUTION_COMMAND_PERSISTENCE_FAILED"
  const UNEXPECTED := "WORKER_UNEXPECTED_FAILURE"

  /** What the worker meets in one cycle. `persists(k)` says whether the k-th transition of the cycle can be
      stored; a failed one has no effect and raises. */
  datatype Cycle = Cycle(
    enabled: bool, persistence: bool, ready: bool, leaderBefore: bool, leaderAfter: bool,
    revalidation: Revalidation, activation: Activation, persists: nat -> bool, now: int, timeout: int)
  {
    /** Four transitions in a row can be stored. */
    predicate StoresFour(from: nat) {
      persists(from) && persists(from + 1) && persists(from + 2) && persists(from + 3)
    }
  }

  const BlockedCodes: set<string> := {
    "ACCOUNT_NOT_EXECUTABLE", "ACCOUNT_SNAPSHOT_REFRESH_FAILED", "ACCOUNT_SNAPSHOT_STALE",
    "APPROVED_MARGIN_CONFLICT", "APPROVED_NOTIONAL_CONFLICT", "APPROVED_QUANTITY_CONFLICT",
    "DECISION_KEY_SUPERSEDED", "DECISION_NOT_READY", "DECISION_STALE", "ENTRY_TRIGGER_CONFLICT",
    "ENTRY_TRIGGER_NOT_READY", "EXECUTION_COMMAND_EXPIRED", "EXECUTION_DECISION_EXPIRED",
    "EXECUTION_DIRECTION_CONFLICT", "EXISTING_EXCHANGE_POSITION_CONFLICT", "GRADE_NOT_EXECUTABLE",
    "LEVERAGE_CONFLICT", "MISSING_DECISION_KEY", "MISSING_SOURCE_PROVENANCE", "PLAN_NOT_EXECUTABLE",
    "RISK_ASSESSMENT_MISSING", "RISK_ASSESSMENT_STALE", "RISK_NOT_APPROVED", "SIGNAL_NOT_ACTIVE",
    "SIGNAL_NOT_FOUND", "SOURCE_SNAPSHOT_SUPERSEDED", "STOP_LOSS_CONFLICT", "TAKE_PROFIT_CONFLICT"
  }

  function FailureTarget(code: string): State {
    if code in BlockedCodes then Blocked else RecoveryRequired
  }

  /** The refusals that can only be raised before an order is sent. */
  const PreSubmissionRefusals: set<string> := {
    "ACCOUNT_NOT_EXECUTABLE", "ACCOUNT_SNAPSHOT_REFRESH_FAILED", "ACCOUNT_SNAPSHOT_STALE",
    "APPROVED_MARGIN_CONFLICT", "APPROVED_NOTIONAL_CONFLICT", "APPROVED_QUANTITY_CONFLICT",
    "DECISION_KEY_SUPERSEDED", "DECISION_NOT_READY", "DECISION_STALE", "ENTRY_TRIGGER_CONFLICT",
    "ENTRY_TRIGGER_NOT_READY", "EXECUTION_COMMAND_EXPIRED", "EXECUTION_DECISION_EXPIRED",
    "EXECUTION_DIRECTION_CONFLICT", "EXISTING_EXCHANGE_POSITION_CONFLICT", "GRADE_NOT_EXECUTABLE",
    "LEVERAGE_CONFLICT", "MISSING_DECISION_KEY", "MISSING_SOURCE_PROVENANCE", "PLAN_NOT_EXECUTABLE",
    "RISK_ASSESSMENT_MISSING", "RISK_ASSESSMENT_STALE", "RISK_NOT_APPROVED", "SIGNAL_NOT_ACTIVE",
    "SIGNAL_NOT_FOUND", "SOURCE_SNAPSHOT_SUPERSEDED", "STOP_LOSS_CONFLICT", "TAKE_PROFIT_CONFLICT"
  }

  lemma BlockedCodesAreRefusals()
    ensures BlockedCodes == PreSubmissionRefusals
  {
  }

  /** The part of a signal id that the client order ids carry. */
  function FirstTwenty(signal: string): string { signal[..if |signal| < 20 then |signal| else 20] }

  /** The trade is the filled and protected trade this command approved, its target exactly the R multiple away. */
  ghost predicate Matches(command: Command, trade: TradeRecord) {
    && trade.signal == command.signal && trade.symbol == command.symbol && trade.direction == command.direction
    && trade.clientId == "af-e-" + FirstTwenty(command.signal)
    && trade.stopClientId == "af-s-" + FirstTwenty(command.signal) && trade.takeClientId == "af-t-" + FirstTwenty(command.signal)
    && trade.status == "FILLED" && 0.0 < trade.executed <= command.approvedQuantity
    && trade.stopOrder != "" && trade.takeOrder != ""
    && trade.takeProfitPrice == if command.direction == Long then trade.entryPrice + Abs(trade.entryPrice - trade.stopPrice) * command.multiple
                                else trade.entryPrice - Abs(trade.entryPrice - trade.stopPrice) * command.multiple
  }

  lemma AcceptedExactlyWhenItMatches(command: Command, trade: TradeRecord)
    ensures TradeConflict(command, trade).None? <==> Matches(command, trade)
  {
    assert Prefix(command.signal) == FirstTwenty(command.signal);
    hide Prefix, FirstTwenty;
  }

  lemma ConflictsAreNotRefusals(command: Command, trade: TradeRecord)
    ensures var conflict := TradeConflict(command, trade);
      conflict.Some? ==> conflict.value !in PreSubmissionRefusals
  {
  }

  predicate InFlight(state: State) {
    state == State.Claimed || state == Submitting || state == EntryConfirmed || state == ProtectionPending || state == Protected
  }

  ghost predicate Stands(entry: Entry, state: State, failure: string) {
    entry.row.state == state && entry.row.failure == Some(failure)
  }

  /** The worker's last result names the end of the cycle: COMPLETED or the recorded failure. */
  ghost predicate Reports(entry: Entry, result: string) {
    if entry.row.state == Completed then result == "COMPLETED" else entry.row.failure == Some(result)
  }

  /** Where the activation leaves a command that was submitted: a refusal from before the submission blocks it, any other
      failure or conflict and every unexpected failure leave it for recovery, and only a matching trade completes it, with
      the trade's three orders recorded. */
  ghost predicate SubmissionSettled(activation: Activation, command: Command, entry: Entry) {
    match activation
    case AppFailure(code) => Stands(entry, if code in PreSubmissionRefusals then Blocked else RecoveryRequired, code)
    case UnexpectedFailure => Stands(entry, RecoveryRequired, UNEXPECTED)
    case Activated(trade) =>
      if !Matches(command, trade) then entry.row.state == RecoveryRequired && entry.row.failure.Some? && entry.row.failure == TradeConflict(command, trade)
      else
        || Stands(entry, RecoveryRequired, UNEXPECTED)
        || (entry.row.state == Completed && entry.row.payload.entryOrder == Some(trade.entryOrder)
            && entry.row.payload.stopOrder == Some(trade.stopOrder) && entry.row.payload.takeOrder == Some(trade.takeOrder))
  }

  /** Where a cycle that returns normally leaves the command it claimed. */
  ghost predicate Settled(cycle: Cycle, command: Command, entry: Entry) {
    match cycle.revalidation
    case RevalidationRaised => false
    case Refused(code) => Stands(entry, Blocked, code)
    case Passed =>
      if !cycle.leaderAfter then Stands(entry, RecoveryRequired, LEADER_LOST)
      else SubmissionSettled(cycle.activation, command, entry)
  }

  class DemoExecutionWorker {
    const commands: ExecutionCommandRepository
    const workerId: string
    var lastCommand: Option<string>
    var lastResult: string
    var gateFailure: Option<string>
    /** Transitions attempted in the current cycle, and whether one of them was off the graph. */
    var attempts: nat
    var offGraph: bool

    constructor (commands: ExecutionCommandRepository, workerId: string)
      ensures this.commands == commands && this.workerId == workerId && !offGraph
    {
      this.commands, this.workerId := commands, workerId;
      lastCommand, lastResult, gateFailure, attempts, offGraph := None, "", None, 0, false;
    }

    /** One attempted transition; false means an exception (not stored, or off the graph). */
    method Try(cycle: Cycle, id: string, to: State, reason: string, updates: Updates) returns (done: bool)
      requires id in commands.store && SoundStore(commands.store) && to != State.Claimed && updates.claim.None?
      modifies this`attempts, this`offGraph, commands
      ensures SoundStore(commands.store) && OnlyTouched(old(commands.store), commands.store, id)
      ensures !done ==> commands.store == old(commands.store)
      ensures done ==> commands.store[id].row.state == to
      ensures var legal := to == old(commands.store)[id].row.state || to in Allowed(old(commands.store)[id].row.state);
        && (done <==> cycle.persists(old(attempts)) && legal)
        && offGraph == (old(offGraph) || (cycle.persists(old(attempts)) && !legal))
      ensures done && to in Allowed(old(commands.store)[id].row.state) ==>
        Moved(old(commands.store)[id].row, commands.store[id].row, to, updates)
      ensures attempts == old(attempts) + 1
    {
      hide Allowed;
      attempts := attempts + 1;
      if !cycle.persists(attempts - 1) { return false; }
      hide SoundStore, Next, OnlyTouched, Moved;
      TouchingKeeps(commands.store, id);
      TransitStep(commands.store, id, to, reason, cycle.now, updates);
      done := commands.Transition(id, to, reason, cycle.now, updates);
      if !done { offGraph := true; }
    }

    /** A transition along the graph, relative to an earlier store that only this command has moved from. */
    method TryNext(cycle: Cycle, id: string, to: State, reason: string, updates: Updates, ghost start: Store) returns (done: bool)
      requires id in commands.store && SoundStore(commands.store) && to != State.Claimed && updates.claim.None?
      requires to in Allowed(commands.store[id].row.state) && !offGraph && OnlyTouched(start, commands.store, id)
      modifies this`attempts, this`offGraph, commands
      ensures id in commands.store && SoundStore(commands.store) && OnlyTouched(start, commands.store, id) && !offGraph
      ensures attempts == old(attempts) + 1 && (done <==> cycle.persists(old(attempts)))
      ensures if done then Moved(old(commands.store)[id].row, commands.store[id].row, to, updates)
              else commands.store == old(commands.store)
    {
      hide SoundStore, Allowed, Moved;
      ghost var before := commands.store;
      done := Try(cycle, id, to, reason, updates);
      OnlyTouchedTwice(start, before, commands.store, id);
    }

    /** The four transitions after a validated fill; stops at the first that raises. */
    method Advance(cycle: Cycle, id: string, trade: TradeRecord) returns (completed: bool)
      requires id in commands.store && SoundStore(commands.store) && commands.store[id].row.state == Submitting && !offGraph
      modifies this`attempts, this`offGraph, commands
      ensures id in commands.store && SoundStore(commands.store) && OnlyTouched(old(commands.store), commands.store, id) && !offGraph
      ensures attempts >= old(attempts) && (completed <==> cycle.StoresFour(old(attempts)))
      ensures completed ==> attempts == old(attempts) + 4
      ensures completed ==>
        var payload := commands.store[id].row.payload;
        && commands.store[id].row.state == Completed && payload.entryOrder == Some(trade.entryOrder)
        && payload.stopOrder == Some(trade.stopOrder) && payload.takeOrder == Some(trade.takeOrder)
      ensures !completed ==> commands.store[id].row.state in {Submitting, EntryConfirmed, ProtectionPending, Protected}
    {
      hide SoundStore, OnlyTouched, Allowed;
      ProtectedPathEdges();
      TouchingKeeps(commands.store, id);
      completed := TryNext(cycle, id, EntryConfirmed, "ENTRY_FILL_VERIFIED", NoUpdates.(entryOrder := Some(trade.entryOrder)), commands.store);
      if !completed { return; }
      completed := TryNext(cycle, id, ProtectionPending, "PROTECTION_VERIFICATION_STARTED", NoUpdates, old(commands.store));
      if !completed { return; }
      completed := TryNext(cycle, id, Protected, "STOP_AND_TAKE_PROFIT_VERIFIED",
                           NoUpdates.(stopOrder := Some(trade.stopOrder), takeOrder := Some(trade.takeOrder)), old(commands.store));
      if !completed { return; }
      completed := TryNext(cycle, id, Completed, "PROTECTED_TRADE_DURABLY_STORED", NoUpdates, old(commands.store));
    }

    /** From SUBMITTING on: activate, validate, advance, or record the failure. */
    method Submit(cycle: Cycle, command: Command) returns (result: nat, raised: bool)
      requires command.id in commands.store && SoundStore(commands.store) && !offGraph
      requires commands.store[command.id].row.state == Submitting
      modifies this, commands
      ensures SoundStore(commands.store) && OnlyTouched(old(commands.store), commands.store, command.id) && !offGraph
      ensures !raised ==> SubmissionSettled(cycle.activation, command, commands.store[command.id])
      ensures raised ==> InFlight(commands.store[command.id].row.state)
      ensures result == 1 <==> !raised && commands.store[command.id].row.state == Completed
      ensures result == 1 <==>
        && cycle.activation.Activated? && Matches(command, cycle.activation.trade)
        && cycle.StoresFour(old(attempts))
      ensures attempts > old(attempts) && (raised <==> !cycle.persists(attempts - 1))
      ensures gateFailure == if raised then Some(PERSISTENCE_FAILED) else old(gateFailure)
      ensures !raised ==> Reports(commands.store[command.id], lastResult)
      ensures result <= 1
    {
      hide SoundStore, TradeConflict, Matches, BlockedCodes, PreSubmissionRefusals, OnlyTouched, Allowed, LEADER_LOST, PERSISTENCE_FAILED, UNEXPECTED;
      ProtectedPathEdges();
      BlockedCodesAreRefusals();
      ghost var before := commands.store;
      TouchingKeeps(before, command.id);
      result, raised := 0, false;
      var target, reason := RecoveryRequired, UNEXPECTED;
      match cycle.activation {
        case Activated(trade) =>
          AcceptedExactlyWhenItMatches(command, trade);
          ConflictsAreNotRefusals(command, trade);
          var conflict := TradeConflict(command, trade);
          if conflict.None? {
            var completed := Advance(cycle, command.id, trade);
            if completed { result, lastResult := 1, "COMPLETED"; return; }
          } else {
            target, reason := FailureTarget(conflict.value), conflict.value;
          }
        case AppFailure(code) => target, reason := FailureTarget(code), code;
        case UnexpectedFailure =>
      }
      var stored := TryNext(cycle, command.id, target, reason, FailureUpdate(reason), before);
      if !stored {
        gateFailure, raised := Some(PERSISTENCE_FAILED), true;
        return;
      }
      lastResult := reason;
    }

    /** From a fresh claim on: revalidate, check the lease again, mark the submission, submit. */
    method Drive(cycle: Cycle, command: Command) returns (result: nat, raised: bool)
      requires command.id in commands.store && SoundStore(commands.store) && !offGraph && attempts == 0
      requires commands.store[command.id].row.state == State.Claimed
      modifies this, commands
      ensures SoundStore(commands.store) && OnlyTouched(old(commands.store), commands.store, command.id) && !offGraph
      ensures !raised ==> Settled(cycle, command, commands.store[command.id])
      ensures raised ==> InFlight(commands.store[command.id].row.state)
      ensures result == 1 <==> !raised && commands.store[command.id].row.state == Completed
      ensures result == 1 <==>
        && cycle.revalidation == Passed && cycle.leaderAfter
        && cycle.activation.Activated? && Matches(command, cycle.activation.trade)
        && cycle.persists(0) && cycle.StoresFour(1)
      ensures raised <==> cycle.revalidation.RevalidationRaised? || (attempts > 0 && !cycle.persists(attempts - 1))
      ensures gateFailure == if cycle.revalidation == Passed && !cycle.leaderAfter then Some(LEADER_LOST)
                             else if cycle.revalidation == Passed && raised then Some(PERSISTENCE_FAILED)
                             else old(gateFailure)
      ensures !raised ==> Reports(commands.store[command.id], lastResult)
      ensures result <= 1
    {
      hide SoundStore, TradeConflict, Matches, OnlyTouched, SubmissionSettled, LEADER_LOST, PERSISTENCE_FAILED, UNEXPECTED, Allowed;
      ClaimedEdges();
      ghost var before := commands.store;
      TouchingKeeps(before, command.id);
      result, raised := 0, false;
      if cycle.revalidation.RevalidationRaised? { raised := true; return; }
      if cycle.revalidation.Refused? {
        var code := cycle.revalidation.code;
        var done := TryNext(cycle, command.id, Blocked, code, FailureUpdate(code), before);
        if !done { raised := true; return; }
        lastResult := code;
        return;
      }
      if !cycle.leaderAfter {
        gateFailure := Some(LEADER_LOST);
        var done := TryNext(cycle, command.id, RecoveryRequired, LEADER_LOST, FailureUpdate(LEADER_LOST), before);
        if !done { raised := true; return; }
        lastResult := LEADER_LOST;
        return;
      }
      var submitting := TryNext(cycle, command.id, Submitting, "WORKER_SUBMISSION_STARTED", NoUpdates, before);
      if !submitting {
        gateFailure, lastResult, raised := Some(PERSISTENCE_FAILED), PERSISTENCE_FAILED, true;
        return;
      }
      ghost var middle := commands.store;
      result, raised := Submit(cycle, command);
      OnlyTouchedTwice(before, middle, commands.store, command.id);
    }

    /** One cycle of the only live worker. It never leaves the transition graph. When it returns normally
        after a claim, the command is COMPLETED, BLOCKED or RECOVERY_REQUIRED, and the result is 1 exactly
        for COMPLETED, which needs an accepted trade. Every other command is left as claiming left it. */
    method ProcessOne(cycle: Cycle) returns (result: nat, raised: bool, claimed: Option<Command>)
      requires SoundStore(commands.store)
      modifies this, commands
      ensures SoundStore(commands.store) && !offGraph
      ensures claimed.None? ==> result == 0 && !raised
      ensures !cycle.enabled || !cycle.persistence || !cycle.ready || !cycle.leaderBefore ==>
        claimed.None? && commands.store == old(commands.store)
      ensures claimed.Some? ==>
        && TakesOldest(old(commands.store), claimed.value.id, cycle.now, cycle.timeout)
        && claimed.value.id in commands.store
        && (forall other :: other in commands.store && other != claimed.value.id ==>
              other in old(commands.store) && commands.store[other] == ExpiredIfDue(old(commands.store)[other], cycle.now))
      ensures claimed.Some? && !raised ==> Settled(cycle, claimed.value, commands.store[claimed.value.id])
      ensures claimed.Some? && raised ==> InFlight(commands.store[claimed.value.id].row.state)
      ensures claimed.Some? ==> (raised <==> cycle.revalidation.RevalidationRaised? || (attempts > 0 && !cycle.persists(attempts - 1)))
      ensures claimed.Some? ==> (result == 1 <==> !raised && commands.store[claimed.value.id].row.state == Completed)
      ensures result == 1 <==>
        && claimed.Some? && cycle.revalidation == Passed && cycle.leaderAfter
        && cycle.activation.Activated? && Matches(claimed.value, cycle.activation.trade)
        && cycle.persists(0) && cycle.StoresFour(1)
      ensures gateFailure ==
        if claimed.None? then
          if cycle.enabled && cycle.persistence && cycle.ready && !cycle.leaderBefore then Some(LEADER_LOST) else old(gateFailure)
        else if cycle.revalidation == Passed && !cycle.leaderAfter then Some(LEADER_LOST)
        else if cycle.revalidation == Passed && raised then Some(PERSISTENCE_FAILED)
        else old(gateFailure)
      ensures claimed.Some? && !raised ==> Reports(commands.store[claimed.value.id], lastResult)
      ensures cycle.enabled && cycle.persistence && cycle.ready && cycle.leaderBefore && claimed.None? ==>
        && commands.store == ExpireDue(old(commands.store), cycle.now)
        && forall id :: id in old(commands.store) ==> !Waits(old(commands.store)[id].row, cycle.now, cycle.timeout)
      ensures result <= 1
    {
      hide SoundStore, OldestClaimable, TakesOldest, Waits, ExpireDue, TradeConflict, Matches, ExpiredIfDue, Next, Settled;
      result, raised, claimed, attempts, offGraph := 0, false, None, 0, false;
      if !cycle.enabled { lastResult := "EXECUTION_DISABLED"; return; }
      if !cycle.persistence { lastResult := "PERSISTENCE_REQUIRED"; return; }
      if !cycle.ready { lastResult := "RECOVERY_NOT_COMPLETE"; return; }
      if !cycle.leaderBefore {
        gateFailure, lastResult := Some(LEADER_LOST), LEADER_LOST;
        return;
      }
      claimed := commands.ClaimOldest(workerId, cycle.now, cycle.timeout);
      if claimed.None? { lastResult := "NO_PENDING_COMMAND"; return; }
      lastCommand := Some(claimed.value.id);
      result, raised := Drive(cycle, claimed.value);
    }
  }

  // ---------------------------------------------------------------- blocked commands sent nothing

  /** The error codes of the activation, as the source spells them. */
  function CodeText(code: EP.Code): string {
    match code
    case ExecutionDisabled => "EXECUTION_DISABLED"
    case CredentialsNotConfigured => "DEMO_CREDENTIALS_NOT_CONFIGURED"
    case TakeProfitPolicyNotConfigured => "TAKE_PROFIT_POLICY_NOT_CONFIGURED"
    case ClientQuantityNotAllowed => "CLIENT_QUANTITY_NOT_ALLOWED"
    case SignalNotFound => "SIGNAL_NOT_FOUND"
    case PlanNotExecutable => "PLAN_NOT_EXECUTABLE"
    case SignalAlreadyExecuted => "SIGNAL_ALREADY_EXECUTED"
    case RiskQuantityUnavailable => "RISK_QUANTITY_UNAVAILABLE"
    case RiskStopUnavailable => "RISK_STOP_UNAVAILABLE"
    case PrivateApiNotConfigured => "DEMO_PRIVATE_API_NOT_CONFIGURED"
    case HedgeModeUnsupported => "HEDGE_MODE_UNSUPPORTED"
    case PrivateApiUnavailable => "DEMO_PRIVATE_API_UNAVAILABLE"
    case ExchangePayloadInvalid => "DEMO_EXCHANGE_PAYLOAD_INVALID"
    case ExchangeRuleValidationFailed => "EXCHANGE_RULE_VALIDATION_FAILED"
    case ProtectivePriceInvalid => "PROTECTIVE_PRICE_INVALID"
    case OrderRejected => "DEMO_ORDER_REJECTED"
    case EntryIdentityInvalid => "ENTRY_ORDER_IDENTITY_INVALID"
    case EntryFillNotVerified => "ENTRY_FILL_NOT_VERIFIED"
    case EntryFillExceedsRiskQuantity => "ENTRY_FILL_EXCEEDS_RISK_QUANTITY"
    case ProtectionNotVerified => "PROTECTIVE_ORDER_NOT_VERIFIED"
    case ProtectionFailedPositionClosed => "PROTECTIVE_ORDER_FAILED_POSITION_CLOSED"
    case UnprotectedPosition => "UNPROTECTED_DEMO_POSITION"
  }

  lemma RefusalsOfActivation(code: EP.Code)
    ensures CodeText(code) in PreSubmissionRefusals <==> Local(code)
  {
  }

  predicate Local(code: EP.Code) { code == EP.PlanNotExecutable || code == EP.SignalNotFound }

  lemma ReadsNeverSayIt(book: EM.Book, env: EM.Env, assessment: EP.Assessment, multiple: real)
    requires assessment.quantity.Some? && assessment.stop.Some?
    ensures var phase := EP.Preflight(book, env, assessment, multiple).0; phase.Stopped? ==> !Local(phase.code)
  {
    hide EM.Read, ER.NormalizeMarketQuantity, ER.NormalizeProtectivePrice, ER.ValidateMarketNotional;
  }

  lemma ExecutionNeverSaysIt(book: EM.Book, env: EM.Env, plan: EP.Plan)
    requires plan.rules.Valid()
    ensures var outcome := EP.Execute(book, env, plan).0; outcome.Raised? ==> !Local(outcome.code)
  {
    hide EP.Protect, EP.ExistingOrNewEntry, EP.BoundedExecutedQuantity, EM.PlaceMarketOrder, EM.CancelOrder;
  }

  /** The two codes only come from the local checks. */
  lemma RefusedLocally(world: EP.World, env: EM.Env, settings: EP.Settings, assessments: seq<EP.Assessment>, request: EP.Request)
    ensures var (outcome, after) := EP.Activate(world, env, settings, assessments, request);
      outcome.Raised? && Local(outcome.code) ==> after == world
  {
    hide EP.FindAssessment, EP.Execute, EP.Preflight;
    if EP.LocalRefusal(settings, assessments, request, world.trades).None? {
      var assessment := EP.FindAssessment(assessments, request.signal).value;
      EP.PreflightPlan(world.book, env, assessment, settings.takeProfitMultiple);
      ReadsNeverSayIt(world.book, env, assessment, settings.takeProfitMultiple);
      var (phase, b1) := EP.Preflight(world.book, env, assessment, settings.takeProfitMultiple);
      if phase.Go? { ExecutionNeverSaysIt(b1, env, phase.value); }
    }
  }

  /** A cycle whose activation failed blocks its command exactly for the two refusals made before anything was sent; the
      exchange and the trades are then untouched. Whenever the activation changed the exchange or got further, the command
      is left for recovery. */
  lemma BlockedCommandsSentNothing(cycle: Cycle, command: Command, entry: Entry,
                                   world: EP.World, env: EM.Env, settings: EP.Settings, assessments: seq<EP.Assessment>, request: EP.Request)
    requires Settled(cycle, command, entry) && cycle.revalidation == Passed && cycle.leaderAfter
    requires var outcome := EP.Activate(world, env, settings, assessments, request).0;
      outcome.Raised? && cycle.activation == AppFailure(CodeText(outcome.code))
    ensures var (outcome, after) := EP.Activate(world, env, settings, assessments, request);
      && entry.row.state == (if Local(outcome.code) then Blocked else RecoveryRequired)
      && (after != world ==> entry.row.state == RecoveryRequired)
      && entry.row.failure == Some(CodeText(outcome.code))
  {
    hide EP.Activate, CodeText, PreSubmissionRefusals;
    RefusedLocally(world, env, settings, assessments, request);
    RefusalsOfActivation(EP.Activate(world, env, settings, assessments, request).0.code);
  }
}
