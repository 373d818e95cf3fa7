/** The durable execution-command queue (app/persistence/execution_command_repository.py): a transition
    graph, append-only history, expiry, claiming and stale-claim recovery. Each transaction is one step. */
module CommandQueue {
  import opened Trading

  datatype State =
    | Pending | Claimed | Submitting | EntryConfirmed | ProtectionPending | Protected
    | Completed | Blocked | Failed | RecoveryRequired | Expired

  function Allowed(state: State): set<State> {
    match state
    case Pending => {Claimed, Blocked, Expired}
    case Claimed => {Submitting, Blocked, Failed, RecoveryRequired, Expired}
    case Submitting => {EntryConfirmed, Blocked, Failed, RecoveryRequired}
    case EntryConfirmed => {ProtectionPending, RecoveryRequired}
    case ProtectionPending => {Protected, Failed, RecoveryRequired}
    case Protected => {Completed, RecoveryRequired}
    case RecoveryRequired => {Claimed, Blocked, Expired}
    case Completed => {}
    case Blocked => {}
    case Failed => {}
    case Expired => {}
  }

  predicate Terminal(state: State) {
    state in {Completed, Blocked, Failed, Expired}
  }

  datatype Claim = Claim(token: (string, string, int), worker: string, at: int)

  datatype Command = Command(
    id: string, key: string, signal: string, decisionKey: string, snapshotVersion: string, symbol: string, direction: Direction,
    approvedQuantity: real, multiple: real,
    state: State, createdAt: int, updatedAt: int, expiresAt: int,
    claim: Option<Claim>, failure: Option<string>,
    entryOrder: Option<string>, stopOrder: Option<string>, takeOrder: Option<string>,
    audit: seq<string>)

  datatype Transition = Transition(sequence: int, from: Option<State>, to: State, reason: string, at: int)

  /** The queried columns beside the stored command payload. */
  datatype Row = Row(state: State, claimedAt: Option<int>, failure: Option<string>, createdAt: int, expiresAt: int, payload: Command)

  datatype Entry = Entry(row: Row, history: seq<Transition>)

  type Store = map<string, Entry>

  /** Field changes a transition may carry; only claiming sets the claim fields. */
  datatype Updates = Updates(
    claim: Option<Claim>, failure: Option<Option<string>>,
    entryOrder: Option<string>, stopOrder: Option<string>, takeOrder: Option<string>)

  const NoUpdates := Updates(None, None, None, None, None)

  function FailureUpdate(reason: string): Updates {
    NoUpdates.(failure := Some(Some(reason)))
  }

  function Override<T>(old_: Option<T>, update: Option<T>): Option<T> {
    if update.Some? then update else old_
  }

  function ClaimTime(command: Command): Option<int> {
    if command.claim.Some? then Some(command.claim.value.at) else None
  }

  function MaxSequence(history: seq<Transition>): int {
    if history == [] then 0
    else
      var rest := MaxSequence(history[..|history| - 1]);
      if history[|history| - 1].sequence > rest then history[|history| - 1].sequence else rest
  }

  function Append(history: seq<Transition>, from: Option<State>, to: State, reason: string, at: int): seq<Transition> {
    history + [Transition(MaxSequence(history) + 1, from, to, reason, at)]
  }

  /** None is the source's illegal-transition error; a transition to the current state changes nothing. */
  function ApplyTransition(entry: Entry, to: State, reason: string, at: int, updates: Updates): Option<Entry> {
    var from := entry.row.state;
    if to == from then Some(entry)
    else if to !in Allowed(from) then None
    else
      var old_ := entry.row.payload;
      var command := old_.(
        state := to, updatedAt := at,
        audit := if reason in old_.audit then old_.audit else old_.audit + [reason],
        claim := Override(old_.claim, updates.claim),
        failure := if updates.failure.Some? then updates.failure.value else old_.failure,
        entryOrder := Override(old_.entryOrder, updates.entryOrder),
        stopOrder := Override(old_.stopOrder, updates.stopOrder),
        takeOrder := Override(old_.takeOrder, updates.takeOrder));
      Some(Entry(
        entry.row.(state := to, payload := command, claimedAt := ClaimTime(command), failure := command.failure),
        Append(entry.history, Some(from), to, reason, at)))
  }

  // ---------------------------------------------------------------- transactions

  datatype CreateError = ConflictWithoutRow

  predicate KeyTaken(store: Store, key: string) {
    exists id :: id in store && store[id].row.payload.key == key
  }

  function NewEntry(command: Command): Entry {
    Entry(
      Row(command.state, ClaimTime(command), command.failure, command.createdAt, command.expiresAt, command),
      Append([], None, Pending, "COMMAND_CREATED", command.createdAt))
  }

  /** What the identity of a command is computed from, and unique among the rows. */
  function Origin(command: Command): (string, string, string) { (command.signal, command.decisionKey, command.snapshotVersion) }

  /** The insert does nothing: another row has the primary key or the same origin. */
  predicate Collides(store: Store, command: Command) {
    command.id in store || exists id :: id in store && Origin(store[id].row.payload) == Origin(command)
  }

  function Created(store: Store, command: Command): Store {
    if KeyTaken(store, command.key) || Collides(store, command) then store else store[command.id := NewEntry(command)]
  }

  /** What `create` answers: the durable command with the key, or the error of an insert that conflicted without one. */
  ghost predicate CreateAnswers(store: Store, command: Command, answer: Result<Command, CreateError>) {
    if KeyTaken(store, command.key)
    then answer.Ok? && answer.value.key == command.key && answer.value.id in store && store[answer.value.id].row.payload == answer.value
    else answer == if Collides(store, command) then Err(ConflictWithoutRow) else Ok(command)
  }

  predicate Due(entry: Entry, now: int) {
    entry.row.state in {Pending, Claimed, RecoveryRequired} && entry.row.expiresAt <= now
  }

  function ExpiredIfDue(entry: Entry, now: int): Entry {
    if Due(entry, now) then ApplyTransition(entry, Expired, "COMMAND_EXPIRED", now, NoUpdates).value else entry
  }

  function ExpireDue(store: Store, now: int): Store {
    map id | id in store :: ExpiredIfDue(store[id], now)
  }

  predicate StaleClaim(row: Row, cutoff: int) {
    row.state in {Claimed, Submitting} && row.claimedAt.Some? && row.claimedAt.value <= cutoff
  }

  predicate Claimable(entry: Entry, now: int, timeout: int) {
    && (entry.row.state in {Pending, RecoveryRequired} || StaleClaim(entry.row, now - timeout))
    && entry.row.expiresAt > now
  }

  predicate OldestClaimable(store: Store, id: string, now: int, timeout: int) {
    && id in store && Claimable(store[id], now, timeout)
    && forall other :: other in store && Claimable(store[other], now, timeout) ==> store[id].row.createdAt <= store[other].row.createdAt
  }

  function Recovered(entry: Entry, now: int): Entry {
    if entry.row.state in {Claimed, Submitting} then
      Entry(
        entry.row.(
          state := RecoveryRequired, failure := Some("STALE_WORKER_CLAIM"),
          payload := entry.row.payload.(state := RecoveryRequired, updatedAt := now, failure := Some("STALE_WORKER_CLAIM"))),
        Append(entry.history, Some(entry.row.state), RecoveryRequired, "STALE_WORKER_CLAIM", now))
    else entry
  }

  function ClaimUpdates(id: string, worker: string, now: int): Updates {
    NoUpdates.(claim := Some(Claim((id, worker, now), worker, now)), failure := Some(None))
  }

  function Reclaimed(entry: Entry, id: string, worker: string, now: int): Entry {
    var ready := Recovered(entry, now);
    var claimed := ApplyTransition(ready, State.Claimed, "WORKER_CLAIMED", now, ClaimUpdates(id, worker, now));
    if claimed.Some? then claimed.value else ready
  }

  // ---------------------------------------------------------------- the invariant

  ghost predicate Numbered(history: seq<Transition>) {
    forall i :: 0 <= i < |history| ==> history[i].sequence == i + 1
  }

  /** Starts at PENDING and chains from-state to to-state along the graph. */
  ghost predicate Chained(history: seq<Transition>) {
    && history != [] && history[0].from == None && history[0].to == Pending
    && forall i :: 1 <= i < |history| ==> history[i].from == Some(history[i - 1].to) && history[i].to in Allowed(history[i - 1].to)
  }

  function LastClaim(history: seq<Transition>): Option<int> {
    if history == [] then None
    else if history[|history| - 1].to == State.Claimed then Some(history[|history| - 1].at)
    else LastClaim(history[..|history| - 1])
  }

  /** Columns and payload agree with each other and with the history's end and last claim. */
  ghost predicate Sound(id: string, entry: Entry) {
    && Numbered(entry.history) && Chained(entry.history)
    && entry.history[|entry.history| - 1].to == entry.row.state == entry.row.payload.state
    && entry.row.payload.id == id
    && entry.row.claimedAt == ClaimTime(entry.row.payload) == LastClaim(entry.history)
    && entry.row.failure == entry.row.payload.failure
    && entry.row.createdAt == entry.row.payload.createdAt && entry.row.expiresAt == entry.row.payload.expiresAt
  }

  ghost predicate SoundStore(store: Store) {
    && (forall id :: id in store ==> Sound(id, store[id]))
    && (forall a, b :: a in store && b in store && store[a].row.payload.key == store[b].row.payload.key ==> a == b)
  }

  lemma {:induction false} MaxOfNumbered(history: seq<Transition>)
    requires Numbered(history)
    ensures MaxSequence(history) == |history|
  {
    if history != [] { MaxOfNumbered(history[..|history| - 1]); }
  }

  lemma AppendSound(history: seq<Transition>, to: State, reason: string, at: int)
    requires Numbered(history) && Chained(history) && to in Allowed(history[|history| - 1].to)
    ensures var after := Append(history, Some(history[|history| - 1].to), to, reason, at);
      && Numbered(after) && Chained(after) && history <= after && after[|after| - 1].to == to
      && LastClaim(after) == (if to == State.Claimed then Some(at) else LastClaim(history))
  {
    MaxOfNumbered(history);
    var after := Append(history, Some(history[|history| - 1].to), to, reason, at);
    assert after[..|after| - 1] == history;
  }

  /** A transition is refused exactly when the edge is missing; otherwise it keeps the record sound, appends
      at most one history line and leaves identity and deadlines alone. */
  lemma TransitionSound(id: string, entry: Entry, to: State, reason: string, at: int, updates: Updates)
    requires Sound(id, entry)
    requires updates.claim.Some? <==> to == State.Claimed
    requires updates.claim.Some? ==> updates.claim.value.at == at
    ensures var after := ApplyTransition(entry, to, reason, at, updates);
      && (after.None? <==> to != entry.row.state && to !in Allowed(entry.row.state))
      && (after.Some? ==>
            && Sound(id, after.value) && after.value.row.state == to
            && entry.history <= after.value.history && |after.value.history| <= |entry.history| + 1
            && (to != entry.row.state ==> |after.value.history| == |entry.history| + 1)
            && after.value.row.payload.key == entry.row.payload.key
            && after.value.row.expiresAt == entry.row.expiresAt && after.value.row.createdAt == entry.row.createdAt)
  {
    if to in Allowed(entry.row.state) {
      AppendSound(entry.history, to, reason, at);
    }
  }

  /** `after` is `before` moved to `to`: one history line more, each carried update written, every other field kept. */
  ghost predicate Written(before: Entry, after: Entry, to: State, reason: string, at: int, updates: Updates) {
    var was, now := before.row.payload, after.row.payload;
    && after.history == before.history + [Transition(|before.history| + 1, Some(before.row.state), to, reason, at)]
    && after.row.state == now.state == to && now.updatedAt == at
    && after.row.failure == now.failure == (if updates.failure.Some? then updates.failure.value else was.failure)
    && now.claim == (if updates.claim.Some? then updates.claim else was.claim)
    && now.entryOrder == (if updates.entryOrder.Some? then updates.entryOrder else was.entryOrder)
    && now.stopOrder == (if updates.stopOrder.Some? then updates.stopOrder else was.stopOrder)
    && now.takeOrder == (if updates.takeOrder.Some? then updates.takeOrder else was.takeOrder)
    && now.audit == (if reason in was.audit then was.audit else was.audit + [reason])
    && now.(state := was.state, updatedAt := was.updatedAt, failure := was.failure, claim := was.claim,
            entryOrder := was.entryOrder, stopOrder := was.stopOrder, takeOrder := was.takeOrder, audit := was.audit) == was
    && after.row.createdAt == before.row.createdAt && after.row.expiresAt == before.row.expiresAt
  }

  /** The edges of the transition graph, as pairs. */
  ghost predicate Edge(from: State, to: State) {
    || (from == Pending && (to == State.Claimed || to == Blocked || to == Expired))
    || (from == State.Claimed && (to == Submitting || to == Blocked || to == Failed || to == RecoveryRequired || to == Expired))
    || (from == Submitting && (to == EntryConfirmed || to == Blocked || to == Failed || to == RecoveryRequired))
    || (from == EntryConfirmed && (to == ProtectionPending || to == RecoveryRequired))
    || (from == ProtectionPending && (to == Protected || to == Failed || to == RecoveryRequired))
    || (from == Protected && (to == Completed || to == RecoveryRequired))
    || (from == RecoveryRequired && (to == State.Claimed || to == Blocked || to == Expired))
  }

  lemma EdgeAllowed(from: State, to: State)
    ensures Edge(from, to) <==> to in Allowed(from)
  {
  }

  /** A move along an edge of the graph, and only such a move, is written, and it writes exactly this. */
  lemma TransitionWrites(id: string, entry: Entry, to: State, reason: string, at: int, updates: Updates)
    requires Sound(id, entry)
    ensures var after := ApplyTransition(entry, to, reason, at, updates);
      && (Edge(entry.row.state, to) ==> after.Some? && Written(entry, after.value, to, reason, at, updates))
      && (!Edge(entry.row.state, to) ==> after == if to == entry.row.state then Some(entry) else None)
  {
    EdgeAllowed(entry.row.state, to);
    MaxOfNumbered(entry.history);
    hide Allowed, Edge, Chained, LastClaim, MaxSequence, Numbered;
  }

  /** What a claim writes: the worker and the time in the claim, no failure, and the lines of the history. */
  lemma ClaimWrites(id: string, entry: Entry, worker: string, now: int, timeout: int)
    requires Sound(id, entry) && Claimable(entry, now, timeout)
    ensures var after := Reclaimed(entry, id, worker, now);
      var stale := entry.row.state == State.Claimed || entry.row.state == Submitting;
      && after.row.payload.claim == Some(Claim((id, worker, now), worker, now))
      && after.row.failure == after.row.payload.failure == None
      && after.row.payload.entryOrder == entry.row.payload.entryOrder && after.row.payload.stopOrder == entry.row.payload.stopOrder
      && after.row.payload.takeOrder == entry.row.payload.takeOrder
      && after.history == entry.history
         + (if stale then [Transition(|entry.history| + 1, Some(entry.row.state), RecoveryRequired, "STALE_WORKER_CLAIM", now)] else [])
         + [Transition(|entry.history| + (if stale then 2 else 1), Some(if stale then RecoveryRequired else entry.row.state), State.Claimed, "WORKER_CLAIMED", now)]
  {
    hide Sound, ApplyTransition, LastClaim;
    var ready := Recovered(entry, now);
    if entry.row.state in {State.Claimed, Submitting} {
      RecoveredSound(id, entry, now);
      SoundIsNumbered(id, entry);
      MaxOfNumbered(entry.history);
    }
    SoundIsNumbered(id, ready);
    TransitionWrites(id, ready, State.Claimed, "WORKER_CLAIMED", now, ClaimUpdates(id, worker, now));
  }

  lemma SoundIsNumbered(id: string, entry: Entry)
    requires Sound(id, entry)
    ensures Numbered(entry.history)
  {
  }

  lemma ExpirySound(id: string, entry: Entry, now: int)
    requires Sound(id, entry)
    ensures var after := ExpiredIfDue(entry, now);
      && Sound(id, after) && entry.history <= after.history && after.row.payload.key == entry.row.payload.key
      && !Due(after, now)
      && (Due(entry, now) ==> after.row.state == Expired) && (!Due(entry, now) ==> after == entry)
  {
    TransitionSound(id, entry, Expired, "COMMAND_EXPIRED", now, NoUpdates);
  }

  lemma RecoveredSound(id: string, entry: Entry, now: int)
    requires Sound(id, entry) && entry.row.state in {State.Claimed, Submitting}
    ensures var ready := Recovered(entry, now);
      && Sound(id, ready) && ready.row.state == RecoveryRequired
      && entry.history <= ready.history && |ready.history| == |entry.history| + 1
      && ready.history[|entry.history|].to == RecoveryRequired
      && ready.row.payload.key == entry.row.payload.key && ready.row.expiresAt == entry.row.expiresAt
  {
    AppendSound(entry.history, RecoveryRequired, "STALE_WORKER_CLAIM", now);
  }

  lemma ReadyIsClaimed(id: string, ready: Entry, worker: string, now: int)
    requires Sound(id, ready) && ready.row.state in {Pending, RecoveryRequired}
    ensures var claimed := ApplyTransition(ready, State.Claimed, "WORKER_CLAIMED", now, ClaimUpdates(id, worker, now));
      && claimed.Some? && Sound(id, claimed.value) && claimed.value.row.state == State.Claimed
      && ready.history <= claimed.value.history && |claimed.value.history| == |ready.history| + 1
      && claimed.value.row.payload.key == ready.row.payload.key && claimed.value.row.expiresAt == ready.row.expiresAt
      && claimed.value.row.payload.claim == Some(Claim((id, worker, now), worker, now))
      && claimed.value.row.claimedAt == Some(now)
  {
    hide Sound, MaxSequence, LastClaim;
    TransitionSound(id, ready, State.Claimed, "WORKER_CLAIMED", now, ClaimUpdates(id, worker, now));
  }

  lemma UnclaimedPending(id: string, entry: Entry)
    requires Sound(id, entry)
    ensures entry.row.state == Pending ==> LastClaim(entry.history) == None
    ensures entry.row.claimedAt == LastClaim(entry.history)
  {
    if entry.row.state == Pending { PendingNeverClaimed(entry.history); }
  }

  /** Claiming a claimable record never fails, records the claim time, and goes through RECOVERY_REQUIRED
      first when the record was still claimed. */
  lemma ClaimSound(id: string, entry: Entry, worker: string, now: int, timeout: int)
    requires Sound(id, entry) && Claimable(entry, now, timeout)
    ensures var after := Reclaimed(entry, id, worker, now);
      && Sound(id, after) && entry.history <= after.history && after.row.payload.key == entry.row.payload.key
      && after.row.state == State.Claimed && after.row.claimedAt == Some(now)
      && after.row.payload.claim == Some(Claim((id, worker, now), worker, now))
      && after.row.expiresAt == entry.row.expiresAt > now
      && (LastClaim(entry.history).Some? ==>
            || entry.row.state == RecoveryRequired
            || (LastClaim(entry.history).value + timeout <= now
                && |after.history| == |entry.history| + 2 && after.history[|entry.history|].to == RecoveryRequired))
  {
    hide Sound, ApplyTransition, LastClaim, ClaimUpdates, Append;
    UnclaimedPending(id, entry);
    if entry.row.state in {State.Claimed, Submitting} {
      hide Recovered;
      RecoveredSound(id, entry, now);
      ReadyIsClaimed(id, Recovered(entry, now), worker, now);
    } else {
      ReadyIsClaimed(id, entry, worker, now);
    }
  }

  lemma NothingReturnsToPending(history: seq<Transition>, i: nat)
    requires Chained(history) && 1 <= i < |history|
    ensures history[i].to != Pending
  {
    assert history[i].to in Allowed(history[i - 1].to);
  }

  /** Nothing returns to PENDING, so a pending record has only its creation behind it. */
  lemma PendingNeverClaimed(history: seq<Transition>)
    requires Chained(history) && history[|history| - 1].to == Pending
    ensures |history| == 1 && LastClaim(history) == None
  {
    if |history| > 1 { NothingReturnsToPending(history, |history| - 1); }
    assert LastClaim(history[..0]) == None;
  }

  // ---------------------------------------------------------------- every run

  datatype Operation =
    | Create(command: Command)
    | Transit(id: string, to: State, reason: string, at: int, updates: Updates)
    | ClaimNext(worker: string, now: int, timeout: int, chosen: string)

  /** What callers of the repository respect: new commands are PENDING and unclaimed, explicit transitions
      never claim, and the row a claim picks is an oldest claimable one after expiry. */
  ghost predicate Proper(store: Store, op: Operation) {
    match op
    case Create(command) => command.state == Pending && command.claim.None?
    case Transit(_, to, _, _, updates) => to != State.Claimed && updates.claim.None?
    case ClaimNext(_, now, timeout, chosen) =>
      (exists id :: OldestClaimable(ExpireDue(store, now), id, now, timeout)) ==>
        OldestClaimable(ExpireDue(store, now), chosen, now, timeout)
  }

  function Next(store: Store, op: Operation): Store {
    match op
    case Create(command) => Created(store, command)
    case Transit(id, to, reason, at, updates) =>
      if id !in store then store
      else
        var after := ApplyTransition(store[id], to, reason, at, updates);
        if after.None? then store else store[id := after.value]
    case ClaimNext(worker, now, timeout, chosen) =>
      var live := ExpireDue(store, now);
      if OldestClaimable(live, chosen, now, timeout) then live[chosen := Reclaimed(live[chosen], chosen, worker, now)] else live
  }

  /** Rows are never removed and histories only grow. */
  ghost predicate Grows(before: Store, after: Store) {
    forall id :: id in before ==> id in after && before[id].history <= after[id].history
  }

  /** At most the record `id` changed, and its history only grew. */
  ghost predicate OnlyTouched(before: Store, after: Store, id: string) {
    && after.Keys == before.Keys && id in before && before[id].history <= after[id].history
    && forall other :: other in before && other != id ==> after[other] == before[other]
  }

  lemma OnlyTouchedTwice(a: Store, b: Store, c: Store, id: string)
    requires OnlyTouched(a, b, id) && OnlyTouched(b, c, id)
    ensures OnlyTouched(a, c, id)
  {
    assert a[id].history <= b[id].history <= c[id].history;
  }

  lemma ExpireDueSound(store: Store, now: int)
    requires SoundStore(store)
    ensures SoundStore(ExpireDue(store, now)) && Grows(store, ExpireDue(store, now))
    ensures forall id :: id in ExpireDue(store, now) ==> !Due(ExpireDue(store, now)[id], now)
  {
    var live := ExpireDue(store, now);
    forall id | id in live
      ensures Sound(id, live[id]) && store[id].history <= live[id].history && live[id].row.payload.key == store[id].row.payload.key && !Due(live[id], now)
    {
      ExpirySound(id, store[id], now);
    }
  }

  /** Replacing one record by a sound one with the same key and a longer history. */
  lemma ReplaceSound(store: Store, id: string, entry: Entry)
    requires SoundStore(store) && id in store && Sound(id, entry)
    requires entry.row.payload.key == store[id].row.payload.key && store[id].history <= entry.history
    ensures SoundStore(store[id := entry]) && Grows(store, store[id := entry])
  {
    hide Sound;
  }

  lemma CreateSound(store: Store, command: Command)
    requires SoundStore(store) && command.state == Pending && command.claim.None?
    ensures SoundStore(Created(store, command)) && Grows(store, Created(store, command))
  {
    NewEntrySound(command);
    assert command.id in store ==> Created(store, command) == store;
    hide Sound, NewEntry, Collides;
  }

  lemma StepSound(store: Store, op: Operation)
    requires SoundStore(store) && Proper(store, op)
    ensures SoundStore(Next(store, op)) && Grows(store, Next(store, op))
  {
    hide Sound, ApplyTransition, Reclaimed, Claimable, ExpireDue;
    match op {
      case Create(command) => CreateSound(store, command);
      case Transit(id, to, reason, at, updates) =>
        if id in store {
          TransitionSound(id, store[id], to, reason, at, updates);
          var after := ApplyTransition(store[id], to, reason, at, updates);
          if after.Some? { ReplaceSound(store, id, after.value); }
        }
      case ClaimNext(worker, now, timeout, chosen) =>
        ExpireDueSound(store, now);
        var live := ExpireDue(store, now);
        if OldestClaimable(live, chosen, now, timeout) {
          ClaimSound(chosen, live[chosen], worker, now, timeout);
          ReplaceSound(live, chosen, Reclaimed(live[chosen], chosen, worker, now));
          GrowsTransitive(store, live, Next(store, op));
        }
    }
  }

  lemma GrowsTransitive(a: Store, b: Store, c: Store)
    requires Grows(a, b) && Grows(b, c)
    ensures Grows(a, c)
  {
    forall id | id in a ensures id in c && a[id].history <= c[id].history {
      assert a[id].history <= b[id].history <= c[id].history;
    }
  }

  lemma NewEntrySound(command: Command)
    requires command.state == Pending && command.claim.None?
    ensures Sound(command.id, NewEntry(command)) && NewEntry(command).row.payload.key == command.key
  {
  }

  ghost predicate ProperRun(store: Store, ops: seq<Operation>)
    decreases |ops|
  {
    ops == [] || (Proper(store, ops[0]) && ProperRun(Next(store, ops[0]), ops[1..]))
  }

  function Run(store: Store, ops: seq<Operation>): Store
    decreases |ops|
  {
    if ops == [] then store else Run(Next(store, ops[0]), ops[1..])
  }

  /** Every reachable queue state is sound, and from any point on histories only grow. */
  lemma {:induction false} RunsAreSound(store: Store, ops: seq<Operation>)
    requires SoundStore(store) && ProperRun(store, ops)
    ensures SoundStore(Run(store, ops)) && Grows(store, Run(store, ops))
    decreases |ops|
  {
    if ops != [] {
      hide SoundStore, Proper, Next, Grows;
      StepSound(store, ops[0]);
      RunsAreSound(Next(store, ops[0]), ops[1..]);
      GrowsTransitive(store, Next(store, ops[0]), Run(store, ops));
    }
  }

  lemma TerminalEntry(entry: Entry, to: State, reason: string, at: int, updates: Updates, now: int, timeout: int)
    requires Terminal(entry.row.state)
    ensures var after := ApplyTransition(entry, to, reason, at, updates); after == None || after == Some(entry)
    ensures !Due(entry, now) && !Claimable(entry, now, timeout)
  {
  }

  /** A terminal state is never left: whatever runs afterwards, the record stays exactly as it is. */
  lemma TerminalIsForever(store: Store, op: Operation, id: string)
    requires id in store && Terminal(store[id].row.state)
    ensures id in Next(store, op) && Next(store, op)[id] == store[id]
  {
    hide ApplyTransition, Due, Claimable, Terminal, Reclaimed, NewEntry;
    match op
    case Create(_) =>
    case Transit(other, to, reason, at, updates) =>
      if other == id { TerminalEntry(store[id], to, reason, at, updates, 0, 0); }
    case ClaimNext(worker, now, timeout, chosen) =>
      TerminalEntry(store[id], Pending, "", 0, NoUpdates, now, timeout);
  }

  lemma {:induction false} TerminalStaysOverRuns(store: Store, ops: seq<Operation>, id: string)
    requires id in store && Terminal(store[id].row.state)
    ensures id in Run(store, ops) && Run(store, ops)[id] == store[id]
    decreases |ops|
  {
    if ops != [] {
      hide Next, Terminal;
      TerminalIsForever(store, ops[0], id);
      TerminalStaysOverRuns(Next(store, ops[0]), ops[1..], id);
    }
  }

  // ---------------------------------------------------------------- what a history means

  function Targets(history: seq<Transition>): seq<State> {
    seq(|history|, i requires 0 <= i < |history| => history[i].to)
  }

  /** Any history that reaches COMPLETED ends with the whole protected path. */
  lemma CompletedPath(history: seq<Transition>)
    requires Chained(history) && history[|history| - 1].to == Completed
    ensures |history| >= 7
    ensures Targets(history)[|history| - 6..] == [State.Claimed, Submitting, EntryConfirmed, ProtectionPending, Protected, Completed]
  {
    var n := |history|;
    assert n > 1 && history[n - 2].to == Protected;
    assert n > 2 && history[n - 3].to == ProtectionPending;
    assert n > 3 && history[n - 4].to == EntryConfirmed;
    assert n > 4 && history[n - 5].to == Submitting;
    assert n > 5 && history[n - 6].to == State.Claimed;
    assert n > 6;
  }

  /** Two claims of one command always have RECOVERY_REQUIRED directly before the later one. */
  lemma ReclaimNeedsRecovery(history: seq<Transition>, i: nat, j: nat)
    requires Chained(history) && i < j < |history|
    requires history[i].to == State.Claimed && history[j].to == State.Claimed
    ensures i < j - 1 && history[j - 1].to == RecoveryRequired
  {
    assert history[j].to in Allowed(history[j - 1].to);
    if j - 1 > 0 { NothingReturnsToPending(history, j - 1); }
  }

  /** Claiming in a sound queue: it picks an oldest live record whenever one exists; the claimed command is
      not expired, and a still-claimed one is taken only after its timeout, through RECOVERY_REQUIRED. */
  lemma ClaimExclusivity(store: Store, worker: string, now: int, timeout: int, chosen: string)
    requires SoundStore(store) && Proper(store, ClaimNext(worker, now, timeout, chosen))
    ensures var live := ExpireDue(store, now);
      var after := Next(store, ClaimNext(worker, now, timeout, chosen));
      && (forall id :: id in after ==> !Due(after[id], now))
      && (OldestClaimable(live, chosen, now, timeout) ==>
            && after[chosen].row.state == State.Claimed && after[chosen].row.expiresAt > now
            && after[chosen].row.claimedAt == Some(now)
            && (forall id :: id in live && id != chosen ==> after[id] == live[id])
            && (LastClaim(store[chosen].history).Some? ==>
                  store[chosen].row.state == RecoveryRequired || LastClaim(store[chosen].history).value + timeout <= now))
      && (!OldestClaimable(live, chosen, now, timeout) ==>
            after == live && forall id :: id in live ==> !Claimable(live[id], now, timeout))
  {
    hide Sound, Reclaimed, ExpiredIfDue, Claimable, Due, LastClaim, ApplyTransition;
    ExpireDueSound(store, now);
    var live := ExpireDue(store, now);
    if OldestClaimable(live, chosen, now, timeout) {
      ClaimedIsNotDue(live[chosen], chosen, worker, now, timeout);
      ClaimableSurvivedExpiry(store[chosen], now, timeout);
      ClaimSound(chosen, live[chosen], worker, now, timeout);
      ExpirySound(chosen, store[chosen], now);
    } else {
      forall id | id in live && Claimable(live[id], now, timeout) ensures false {
        OldestExists(live, id, now, timeout);
      }
    }
  }

  lemma ClaimedIsNotDue(entry: Entry, id: string, worker: string, now: int, timeout: int)
    requires Sound(id, entry) && Claimable(entry, now, timeout)
    ensures !Due(Reclaimed(entry, id, worker, now), now)
  {
    ClaimSound(id, entry, worker, now, timeout);
  }

  lemma ClaimableSurvivedExpiry(entry: Entry, now: int, timeout: int)
    requires Claimable(ExpiredIfDue(entry, now), now, timeout)
    ensures ExpiredIfDue(entry, now) == entry
  {
  }

  lemma OldestExists(store: Store, seed: string, now: int, timeout: int)
    requires seed in store && Claimable(store[seed], now, timeout)
    ensures exists id :: OldestClaimable(store, id, now, timeout)
  {
    var pool := set id | id in store && Claimable(store[id], now, timeout);
    var best := OldestOf(store, pool, seed);
    assert forall other :: other in store && Claimable(store[other], now, timeout) ==> other in pool;
    assert OldestClaimable(store, best, now, timeout);
  }

  lemma {:induction false} OldestOf(store: Store, pool: set<string>, seed: string) returns (best: string)
    requires seed in pool && pool <= store.Keys
    ensures best in pool && forall other :: other in pool ==> store[best].row.createdAt <= store[other].row.createdAt
    decreases pool
  {
    var rest := pool - {seed};
    if rest == {} {
      best := seed;
      assert pool == {seed};
    } else {
      var next :| next in rest;
      best := OldestOf(store, rest, next);
      if store[seed].row.createdAt < store[best].row.createdAt { best := seed; }
      assert forall other :: other in pool ==> other == seed || other in rest;
    }
  }

  // ---------------------------------------------------------------- two claims of one command

  ghost predicate Claims(store: Store, op: Operation, id: string) {
    op.ClaimNext? && op.chosen == id && OldestClaimable(ExpireDue(store, op.now), id, op.now, op.timeout)
  }

  predicate ClaimedSince(entry: Entry, t: int) {
    LastClaim(entry.history).Some? && LastClaim(entry.history).value >= t
  }

  /** No operation forgets when a command was last claimed. */
  lemma StepRemembersClaim(store: Store, op: Operation, id: string, t: int)
    requires SoundStore(store) && Proper(store, op) && id in store && ClaimedSince(store[id], t)
    requires op.ClaimNext? ==> op.now >= t
    ensures id in Next(store, op) && ClaimedSince(Next(store, op)[id], t)
  {
    hide Sound, ApplyTransition, Reclaimed, Claimable, LastClaim, ClaimTime, Due;
    match op {
      case Create(_) =>
      case Transit(other, to, reason, at, updates) =>
        if other == id { TransitionRemembersClaim(id, store[id], to, reason, at, updates); }
      case ClaimNext(worker, now, timeout, chosen) =>
        ExpireDueSound(store, now);
        ExpiryRemembersClaim(id, store[id], now);
        var live := ExpireDue(store, now);
        if OldestClaimable(live, chosen, now, timeout) && chosen == id {
          ClaimSound(id, live[id], worker, now, timeout);
          SoundClaimTime(id, Reclaimed(live[id], id, worker, now));
        }
    }
  }

  lemma SoundClaimTime(id: string, entry: Entry)
    requires Sound(id, entry)
    ensures entry.row.claimedAt == LastClaim(entry.history)
  {
  }

  lemma TransitionRemembersClaim(id: string, entry: Entry, to: State, reason: string, at: int, updates: Updates)
    requires Sound(id, entry) && to != State.Claimed
    ensures var after := ApplyTransition(entry, to, reason, at, updates); after.Some? ==> LastClaim(after.value.history) == LastClaim(entry.history)
  {
    hide LastClaim, MaxSequence;
    if to in Allowed(entry.row.state) && to != entry.row.state { AppendSound(entry.history, to, reason, at); }
  }

  lemma ExpiryRemembersClaim(id: string, entry: Entry, now: int)
    requires Sound(id, entry)
    ensures LastClaim(ExpiredIfDue(entry, now).history) == LastClaim(entry.history)
  {
    hide LastClaim, Append, Sound;
    TransitionRemembersClaim(id, entry, Expired, "COMMAND_EXPIRED", now, NoUpdates);
  }

  lemma {:induction false} RunsRememberClaim(store: Store, ops: seq<Operation>, id: string, t: int)
    requires SoundStore(store) && ProperRun(store, ops) && id in store && ClaimedSince(store[id], t)
    requires forall i :: 0 <= i < |ops| && ops[i].ClaimNext? ==> ops[i].now >= t
    ensures var after := Run(store, ops); SoundStore(after) && id in after && ClaimedSince(after[id], t)
    decreases |ops|
  {
    hide SoundStore, Proper, Next, ClaimedSince;
    if ops != [] {
      StepSound(store, ops[0]);
      StepRemembersClaim(store, ops[0], id, t);
      RunsRememberClaim(Next(store, ops[0]), ops[1..], id, t);
    }
  }

  /** Two claims of one command, however much happens in between: by the second, either a worker has given the command
      up for recovery, or the first claim is older than the timeout and the command goes through RECOVERY_REQUIRED now. */
  lemma ClaimsNeverOverlap(store: Store, first: Operation, between: seq<Operation>, second: Operation, id: string)
    requires SoundStore(store) && Proper(store, first) && Claims(store, first, id)
    requires ProperRun(Next(store, first), between)
    requires forall i :: 0 <= i < |between| && between[i].ClaimNext? ==> between[i].now >= first.now
    requires var reached := Run(Next(store, first), between); Proper(reached, second) && Claims(reached, second, id)
    ensures var reached := Run(Next(store, first), between);
      && id in reached
      && (reached[id].row.state == RecoveryRequired
          || (first.now + second.timeout <= second.now
              && (var after := Next(reached, second)[id].history; reached[id].history < after && after[|reached[id].history|].to == RecoveryRequired)))
  {
    hide Sound, Reclaimed, Claimable, LastClaim, ExpiredIfDue;
    var start := Next(store, first);
    StepSound(store, first);
    ExpireDueSound(store, first.now);
    ClaimSound(id, ExpireDue(store, first.now)[id], first.worker, first.now, first.timeout);
    SoundClaimTime(id, start[id]);
    RunsRememberClaim(start, between, id, first.now);
    var reached := Run(start, between);
    var live := ExpireDue(reached, second.now);
    ExpireDueSound(reached, second.now);
    ClaimableSurvivedExpiry(reached[id], second.now, second.timeout);
    ClaimSound(id, live[id], second.worker, second.now, second.timeout);
  }

  // ---------------------------------------------------------------- what moves a record without its worker

  /** The claim query's guard on a claimed row: its claim timed out and its deadline has not passed. */
  predicate InWindow(row: Row, now: int, timeout: int) {
    row.claimedAt.Some? && row.claimedAt.value + timeout <= now < row.expiresAt
  }

  /** When an operation other than a transition of this very record changes it. Polls expire or claim a waiting record,
      only ever reclaim a SUBMITTING one, and look at nothing else. */
  predicate Moves(row: Row, op: Operation, id: string) {
    match op
    case ClaimNext(_, now, timeout, chosen) =>
      (match row.state
       case Pending => row.expiresAt <= now || chosen == id
       case RecoveryRequired => row.expiresAt <= now || chosen == id
       case Claimed => row.expiresAt <= now || (chosen == id && InWindow(row, now, timeout))
       case Submitting => chosen == id && InWindow(row, now, timeout)
       case _ => false)
    case Create(_) => false
    case Transit(_, _, _, _, _) => false
  }

  predicate TransitsOther(op: Operation, id: string) { op.Transit? ==> op.id != id }

  lemma StepMoves(store: Store, op: Operation, id: string)
    requires SoundStore(store) && Proper(store, op) && id in store && TransitsOther(op, id)
    ensures id in Next(store, op)
    ensures if Moves(store[id].row, op, id) then |Next(store, op)[id].history| > |store[id].history| else Next(store, op)[id] == store[id]
  {
    hide Sound, Reclaimed, LastClaim, ApplyTransition;
    match op {
      case Create(_) =>
      case Transit(other, _, _, _, _) =>
      case ClaimNext(worker, now, timeout, chosen) =>
        PollMoves(store, op, id);
    }
  }

  lemma PollMoves(store: Store, op: Operation, id: string)
    requires SoundStore(store) && op.ClaimNext? && Proper(store, op) && id in store
    ensures id in Next(store, op)
    ensures if Moves(store[id].row, op, id) then |Next(store, op)[id].history| > |store[id].history| else Next(store, op)[id] == store[id]
  {
    hide SoundStore, Sound, Reclaimed, LastClaim, Claimable, ExpiredIfDue, Proper, Next;
    assert Sound(id, store[id]) by { SoundEach(store, id); }
    PollEffect(store, op, id);
    ExpirySound(id, store[id], op.now);
    ExpiryLengthens(id, store[id], op.now);
    ClaimableExactlyWhen(id, store[id], op.now, op.timeout);
    var live := ExpiredIfDue(store[id], op.now);
    if op.chosen == id && Claimable(live, op.now, op.timeout) { ClaimLengthens(id, live, op.worker, op.now, op.timeout); }
  }

  lemma SoundEach(store: Store, id: string)
    requires SoundStore(store) && id in store
    ensures Sound(id, store[id])
  {
    hide Sound;
  }

  /** What a poll makes of one record. */
  lemma PollEffect(store: Store, op: Operation, id: string)
    requires op.ClaimNext? && Proper(store, op) && id in store
    ensures var live := ExpiredIfDue(store[id], op.now);
      && id in Next(store, op)
      && Next(store, op)[id] == if op.chosen == id && Claimable(live, op.now, op.timeout) then Reclaimed(live, id, op.worker, op.now) else live
  {
    hide OldestClaimable, Proper, ExpiredIfDue, Claimable, Reclaimed;
    if op.chosen == id { ChosenIsTaken(store, op, id); }
  }

  /** The record a poll picks is taken exactly when it can be claimed. */
  lemma ChosenIsTaken(store: Store, op: Operation, id: string)
    requires op.ClaimNext? && Proper(store, op) && id in store && op.chosen == id
    ensures var live := ExpireDue(store, op.now); OldestClaimable(live, id, op.now, op.timeout) <==> Claimable(live[id], op.now, op.timeout)
  {
    hide Claimable, ExpiredIfDue;
    var live := ExpireDue(store, op.now);
    if Claimable(live[id], op.now, op.timeout) { OldestExists(live, id, op.now, op.timeout); }
  }

  lemma ExpiryLengthens(id: string, entry: Entry, now: int)
    requires Sound(id, entry)
    ensures if Due(entry, now) then |ExpiredIfDue(entry, now).history| > |entry.history| else ExpiredIfDue(entry, now) == entry
  {
    hide Sound;
    TransitionSound(id, entry, Expired, "COMMAND_EXPIRED", now, NoUpdates);
  }

  lemma ClaimLengthens(id: string, entry: Entry, worker: string, now: int, timeout: int)
    requires Sound(id, entry) && Claimable(entry, now, timeout)
    ensures |Reclaimed(entry, id, worker, now).history| > |entry.history|
  {
    hide Sound, ApplyTransition;
    if entry.row.state in {State.Claimed, Submitting} {
      hide Recovered;
      RecoveredSound(id, entry, now);
      ReadyIsClaimed(id, Recovered(entry, now), worker, now);
    } else {
      ReadyIsClaimed(id, entry, worker, now);
    }
  }

  /** What can still be claimed after the expiry, state by state. */
  lemma ClaimableExactlyWhen(id: string, entry: Entry, now: int, timeout: int)
    requires Sound(id, entry)
    ensures Claimable(ExpiredIfDue(entry, now), now, timeout) <==>
      && entry.row.expiresAt > now
      && (entry.row.state in {Pending, RecoveryRequired} || (entry.row.state in {State.Claimed, Submitting} && InWindow(entry.row, now, timeout)))
  {
    hide Sound;
    ExpirySound(id, entry, now);
    ExpiryKeepsDeadline(entry, now);
  }

  /** A poll may hand this record out: it is not past its deadline, and waits or was claimed too long ago. */
  predicate Waits(row: Row, now: int, timeout: int) {
    && row.expiresAt > now
    && (row.state == Pending || row.state == RecoveryRequired
        || ((row.state == State.Claimed || row.state == Submitting) && row.claimedAt.Some? && row.claimedAt.value + timeout <= now))
  }

  /** The record a claim takes, in the fields of the records before the poll: it waits, and no waiting record is older. */
  lemma OldestInFields(store: Store, chosen: string, now: int, timeout: int)
    requires SoundStore(store)
    ensures OldestClaimable(ExpireDue(store, now), chosen, now, timeout) <==>
      && chosen in store && Waits(store[chosen].row, now, timeout)
      && forall other :: other in store && Waits(store[other].row, now, timeout) ==> store[chosen].row.createdAt <= store[other].row.createdAt
  {
    hide Sound, ExpiredIfDue, Claimable, Waits;
    forall id | id in store
      ensures Claimable(ExpireDue(store, now)[id], now, timeout) <==> Waits(store[id].row, now, timeout)
      ensures ExpireDue(store, now)[id].row.createdAt == store[id].row.createdAt
    {
      ClaimableExactlyWhen(id, store[id], now, timeout);
      WaitsInWindow(store[id].row, now, timeout);
      ExpiryKeepsCreation(id, store[id], now);
    }
  }

  lemma WaitsInWindow(row: Row, now: int, timeout: int)
    ensures Waits(row, now, timeout) <==>
      && row.expiresAt > now
      && (row.state in {Pending, RecoveryRequired} || (row.state in {State.Claimed, Submitting} && InWindow(row, now, timeout)))
  {
  }

  lemma ExpiryKeepsCreation(id: string, entry: Entry, now: int)
    requires Sound(id, entry)
    ensures ExpiredIfDue(entry, now).row.createdAt == entry.row.createdAt
  {
    hide Sound;
    TransitionSound(id, entry, Expired, "COMMAND_EXPIRED", now, NoUpdates);
  }

  lemma ExpiryKeepsDeadline(entry: Entry, now: int)
    ensures ExpiredIfDue(entry, now) == entry || ExpiredIfDue(entry, now).row.state == Expired
  {
  }

  /** Over every run in which no worker transitions the record, whatever is created, polled or done to others, it is left
      exactly as it is if and only if no poll moves it. */
  lemma {:induction false} RecordStaysExactlyUnlessMoved(store: Store, ops: seq<Operation>, id: string)
    requires SoundStore(store) && ProperRun(store, ops) && id in store
    requires forall i :: 0 <= i < |ops| ==> TransitsOther(ops[i], id)
    ensures id in Run(store, ops)
    ensures Run(store, ops)[id] == store[id] <==> forall i :: 0 <= i < |ops| ==> !Moves(store[id].row, ops[i], id)
    decreases |ops|
  {
    hide SoundStore, Proper, Next, Moves;
    if ops != [] {
      var next := Next(store, ops[0]);
      StepSound(store, ops[0]);
      StepMoves(store, ops[0], id);
      if next[id] == store[id] {
        RecordStaysExactlyUnlessMoved(next, ops[1..], id);
        assert forall i :: 0 < i < |ops| ==> ops[i] == ops[1..][i - 1];
      } else {
        RunsAreSound(next, ops[1..]);
        assert next[id].history <= Run(next, ops[1..])[id].history;
      }
    }
  }

  /** A record that its worker left in ENTRY_CONFIRMED, PROTECTION_PENDING or PROTECTED stays there: no number of polls
      expires it or hands it to anyone. */
  lemma {:induction false} AbandonedMidwayStaysForever(store: Store, ops: seq<Operation>, id: string)
    requires id in store && store[id].row.state in {EntryConfirmed, ProtectionPending, Protected}
    requires forall i :: 0 <= i < |ops| ==> TransitsOther(ops[i], id)
    ensures id in Run(store, ops) && Run(store, ops)[id] == store[id]
    decreases |ops|
  {
    if ops != [] { AbandonedMidwayStaysForever(Next(store, ops[0]), ops[1..], id); }
  }

  /** The gap the claim query leaves: a SUBMITTING record past its deadline is neither expired nor claimed,
      however late and however often workers poll. */
  lemma {:induction false} OverdueSubmissionIsNeverPickedUp(store: Store, ops: seq<Operation>, id: string)
    requires id in store && store[id].row.state == Submitting
    requires forall i :: 0 <= i < |ops| ==> ops[i].ClaimNext? && store[id].row.expiresAt <= ops[i].now
    ensures id in Run(store, ops) && Run(store, ops)[id] == store[id]
    decreases |ops|
  {
    if ops != [] {
      OverdueSubmissionIsNeverPickedUp(Next(store, ops[0]), ops[1..], id);
    }
  }

  // ---------------------------------------------------------------- creating

  /** Creating twice by one key is creating once: after a success the second call changes nothing and answers with the
      same durable command; the first call fails exactly when its key is free and another row collides with it. */
  lemma CreateIsIdempotent(store: Store, command: Command, again: Command, first: Result<Command, CreateError>, second: Result<Command, CreateError>)
    requires SoundStore(store) && command.state == Pending && command.claim.None? && command.key == again.key
    requires CreateAnswers(store, command, first) && CreateAnswers(Created(store, command), again, second)
    ensures first.Err? <==> !KeyTaken(store, command.key) && Collides(store, command)
    ensures first.Err? ==> Created(store, command) == store
    ensures first.Ok? ==> Created(Created(store, command), again) == Created(store, command) && second == first
  {
    hide Sound;
    var once := Created(store, command);
    CreateSound(store, command);
    if first.Ok? {
      assert first.value.id in once && once[first.value.id].row.payload == first.value;
      assert KeyTaken(once, again.key);
    }
  }

  /** Two commands of one signal, decision and snapshot. */
  predicate SameSource(a: Command, b: Command) {
    a.signal == b.signal && a.decisionKey == b.decisionKey && a.snapshotVersion == b.snapshotVersion
  }

  /** Creating in fields: nothing happens when a row has the key, the id or the origin of the command; else one PENDING row
      with one history line is inserted. It answers with the row of the key, with the new command, or with a conflict. */
  lemma CreateExactly(store: Store, command: Command, answer: Result<Command, CreateError>)
    requires command.state == Pending && command.claim.None? && CreateAnswers(store, command, answer)
    ensures var after := Created(store, command);
      var keyed := exists id :: id in store && store[id].row.payload.key == command.key;
      var taken := command.id in store || exists id :: id in store && SameSource(store[id].row.payload, command);
      && (keyed || taken ==> after == store)
      && (!keyed && !taken ==>
            && after.Keys == store.Keys + {command.id} && (forall id :: id in store ==> after[id] == store[id])
            && after[command.id].row == Row(Pending, None, command.failure, command.createdAt, command.expiresAt, command)
            && after[command.id].history == [Transition(1, None, Pending, "COMMAND_CREATED", command.createdAt)])
      && (keyed ==> answer.Ok? && answer.value.key == command.key && exists id :: id in store && store[id].row.payload == answer.value)
      && (!keyed && taken ==> answer == Err(ConflictWithoutRow)) && (!keyed && !taken ==> answer == Ok(command))
  {
    assert Append([], None, Pending, "COMMAND_CREATED", command.createdAt) == [Transition(1, None, Pending, "COMMAND_CREATED", command.createdAt)];
    OriginsTaken(store, command);
    KeysTaken(store, command.key);
    hide KeyTaken, Collides, Append;
  }

  lemma KeysTaken(store: Store, key: string)
    ensures KeyTaken(store, key) <==> exists id :: id in store && store[id].row.payload.key == key
  {
  }

  lemma OriginsTaken(store: Store, command: Command)
    ensures Collides(store, command) <==>
      command.id in store || exists id :: id in store && SameSource(store[id].row.payload, command)
  {
    forall other: Command ensures Origin(other) == Origin(command) <==> SameSource(other, command) {}
    if id :| id in store && Origin(store[id].row.payload) == Origin(command) {
      assert SameSource(store[id].row.payload, command);
    }
    if id :| id in store && SameSource(store[id].row.payload, command) {
      assert Origin(store[id].row.payload) == Origin(command);
    }
  }

  /** Identities computed from the origin by an injective digest, as the command service computes them. */
  ghost predicate Deterministic(command: Command, digest: (string, string, string) -> string) {
    command.id == command.key == digest(command.signal, command.decisionKey, command.snapshotVersion)
  }

  ghost predicate Injective(digest: (string, string, string) -> string) {
    forall a, b, c, x, y, z :: digest(a, b, c) == digest(x, y, z) ==> a == x && b == y && c == z
  }

  /** A queue fed only by the command service never meets the conflict: every creation is answered with the durable command
      of its origin, and a signal's decision on one snapshot has at most one row. */
  lemma DeterministicCommandsNeverConflict(store: Store, command: Command, answer: Result<Command, CreateError>, digest: (string, string, string) -> string)
    requires SoundStore(store) && Injective(digest) && Deterministic(command, digest)
    requires forall id :: id in store ==> Deterministic(store[id].row.payload, digest)
    requires CreateAnswers(store, command, answer)
    ensures answer.Ok? && Origin(answer.value) == Origin(command)
    ensures forall id :: id in Created(store, command) ==> Deterministic(Created(store, command)[id].row.payload, digest)
    ensures forall a, b :: a in store && b in store && Origin(store[a].row.payload) == Origin(store[b].row.payload) ==> a == b
  {
    forall id | id in store && (id == command.id || Origin(store[id].row.payload) == Origin(command)) ensures KeyTaken(store, command.key) {
      assert store[id].row.payload.key == command.key;
    }
  }
}
