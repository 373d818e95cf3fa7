/** The versioned signal store of app/services/signals.py: synchronisation with the scanner's candidates, risk blocking,
    bounded retention. The candidate fields that are only copied are one opaque `values`. */
module SignalStore {
  import opened Trading

  datatype Lifecycle = Active | Watch | Expired | Invalidated | Rejected | RiskBlocked

  datatype Transition = Transition(sequence: nat, lifecycle: Lifecycle, at: int, reason: string)

  datatype Record = Record(
    candidate: string, version: nat, lifecycle: Lifecycle, updatedAt: int, terminalAt: Option<int>,
    values: int, auditCodes: seq<string>, history: seq<Transition>)

  /** A scanner candidate with its lifecycle already mapped. */
  datatype Candidate = Candidate(id: string, lifecycle: Lifecycle, evaluatedAt: int, values: int, auditCodes: seq<string>, reason: string)

  /** The two dictionaries of the service. */
  datatype Store = Store(records: map<string, Record>, candidateBySignal: map<string, string>)

  predicate Terminal(l: Lifecycle) { l != Active && l != Watch }

  /** The hash of this text is taken to be injective, so the text stands for it. */
  function SignalId(candidate: string): string { "astraforge-signal-v1:" + candidate }

  lemma SignalIdsAreDistinct(a: string, b: string)
    requires SignalId(a) == SignalId(b)
    ensures a == b
  {
    var prefix := "astraforge-signal-v1:";
    assert SignalId(a)[|prefix|..] == a && SignalId(b)[|prefix|..] == b;
  }

  // ---------------------------------------------------------------- one record

  function Created(c: Candidate): Record {
    Record(c.id, 1, c.lifecycle, c.evaluatedAt, if Terminal(c.lifecycle) then Some(c.evaluatedAt) else None,
           c.values, c.auditCodes, [Transition(1, c.lifecycle, c.evaluatedAt, c.reason)])
  }

  function UpdateRecord(r: Record, c: Candidate): Record {
    if r.values == c.values && r.auditCodes == c.auditCodes && r.lifecycle == c.lifecycle then r
    else if r.lifecycle == c.lifecycle then r.(version := r.version + 1, updatedAt := c.evaluatedAt, values := c.values, auditCodes := c.auditCodes)
    else Record(r.candidate, r.version + 1, c.lifecycle, c.evaluatedAt, if Terminal(c.lifecycle) then Some(c.evaluatedAt) else r.terminalAt,
                c.values, c.auditCodes, r.history + [Transition(|r.history| + 1, c.lifecycle, c.evaluatedAt, c.reason)])
  }

  function TransitionTo(r: Record, lifecycle: Lifecycle, at: int, reason: string): Record {
    if r.lifecycle == lifecycle then r
    else
      r.(version := r.version + 1, lifecycle := lifecycle, updatedAt := at, terminalAt := if Terminal(lifecycle) then Some(at) else None,
         auditCodes := if reason in r.auditCodes then r.auditCodes else r.auditCodes + [reason],
         history := r.history + [Transition(|r.history| + 1, lifecycle, at, reason)])
  }

  // ---------------------------------------------------------------- synchronisation

  function Accept(s: Store, c: Candidate): Store {
    if c.id !in s.records then Store(s.records[c.id := Created(c)], s.candidateBySignal[SignalId(c.id) := c.id])
    else
      var existing := s.records[c.id];
      if Terminal(existing.lifecycle) && c.lifecycle != existing.lifecycle then s
      else s.(records := s.records[c.id := UpdateRecord(existing, c)])
  }

  function AcceptAll(s: Store, candidates: seq<Candidate>): Store {
    if candidates == [] then s else Accept(AcceptAll(s, candidates[..|candidates| - 1]), candidates[|candidates| - 1])
  }

  function SeenIn(candidates: seq<Candidate>): set<string> { set i | 0 <= i < |candidates| :: candidates[i].id }

  /** What becomes of a record when the latest completed scan, finished at `run`, did not show its candidate. */
  function Missed(r: Record, seen: set<string>, run: int): Record {
    if r.candidate in seen || Terminal(r.lifecycle) || run < r.updatedAt then r
    else TransitionTo(r, Invalidated, run, "SOURCE_CANDIDATE_MISSING")
  }

  function InvalidateMissing(s: Store, seen: set<string>, run: Option<int>): Store {
    if run.None? then s else s.(records := map id | id in s.records :: Missed(s.records[id], seen, run.value))
  }

  function Gathered(s: Store, candidates: seq<Candidate>, run: Option<int>): Store {
    InvalidateMissing(AcceptAll(s, candidates), SeenIn(candidates), run)
  }

  // ---------------------------------------------------------------- retention

  function PruneRank(l: Lifecycle): nat {
    match l
    case Watch => 1
    case Active => 2
    case _ => 0
  }

  function RetentionTime(r: Record): int { if r.terminalAt.Some? then r.terminalAt.value else r.updatedAt }

  /** `a` is pruned before `b`. */
  predicate PrunedBefore(a: Record, b: Record) {
    PruneRank(a.lifecycle) < PruneRank(b.lifecycle)
    || (PruneRank(a.lifecycle) == PruneRank(b.lifecycle)
        && (RetentionTime(a) < RetentionTime(b) || (RetentionTime(a) == RetentionTime(b) && TextLess(SignalId(a.candidate), SignalId(b.candidate)))))
  }

  /** The signal of some record that is no longer kept. */
  ghost predicate GoneSignal(before: Store, after: Store, signal: string) {
    exists gone :: gone in before.records && gone !in after.records && signal == SignalId(gone)
  }

  /** Pruning keeps exactly the last records in pruning order, never more than the limit. */
  ghost predicate Pruned(before: Store, after: Store, limit: nat) {
    && after.records.Keys <= before.records.Keys
    && (forall id :: id in after.records ==> after.records[id] == before.records[id])
    && |after.records| == (if |before.records| > limit then limit else |before.records|)
    && (forall gone, kept :: gone in before.records && gone !in after.records && kept in after.records ==>
          !PrunedBefore(before.records[kept], before.records[gone]))
    && (forall signal :: signal in after.candidateBySignal <==> signal in before.candidateBySignal && !GoneSignal(before, after, signal))
    && (forall signal :: signal in after.candidateBySignal ==> after.candidateBySignal[signal] == before.candidateBySignal[signal])
  }

  // ---------------------------------------------------------------- the invariant

  /** Histories are numbered from one, neighbours differ, only the last entry may be terminal and it is the current
      lifecycle; the version never lags the history; terminal time is set exactly for terminal records. */
  ghost predicate SoundRecord(r: Record) {
    && 1 <= |r.history| <= r.version
    && (forall i :: 0 <= i < |r.history| ==> r.history[i].sequence == i + 1)
    && (forall i :: 0 < i < |r.history| ==> r.history[i].lifecycle != r.history[i - 1].lifecycle)
    && (forall i :: 0 <= i < |r.history| - 1 ==> !Terminal(r.history[i].lifecycle))
    && r.history[|r.history| - 1].lifecycle == r.lifecycle
    && (r.terminalAt.Some? <==> Terminal(r.lifecycle))
  }

  ghost predicate Sound(s: Store) {
    && (forall id :: id in s.records ==> s.records[id].candidate == id && SoundRecord(s.records[id]))
    && (forall id :: id in s.records ==> SignalId(id) in s.candidateBySignal && s.candidateBySignal[SignalId(id)] == id)
    && (forall signal :: signal in s.candidateBySignal ==> s.candidateBySignal[signal] in s.records && SignalId(s.candidateBySignal[signal]) == signal)
  }

  lemma UpdateKeepsSound(r: Record, c: Candidate)
    requires SoundRecord(r) && (Terminal(r.lifecycle) ==> c.lifecycle == r.lifecycle)
    ensures SoundRecord(UpdateRecord(r, c))
  {
  }

  lemma TransitionKeepsSound(r: Record, lifecycle: Lifecycle, at: int, reason: string)
    requires SoundRecord(r) && !Terminal(r.lifecycle)
    ensures SoundRecord(TransitionTo(r, lifecycle, at, reason))
  {
  }

  lemma AcceptKeepsSound(s: Store, c: Candidate)
    requires Sound(s)
    ensures Sound(Accept(s, c))
  {
    hide SoundRecord, UpdateRecord, SignalId;
    if c.id in s.records {
      var r := s.records[c.id];
      if !Terminal(r.lifecycle) || c.lifecycle == r.lifecycle {
        UpdateKeepsSound(r, c);
        UpdateKeepsCandidate(r, c);
      }
    } else {
      CreatedIsSound(c);
      forall id | id in s.records ensures SignalId(id) != SignalId(c.id) {
        if SignalId(id) == SignalId(c.id) { SignalIdsAreDistinct(id, c.id); }
      }
    }
  }

  lemma CreatedIsSound(c: Candidate)
    ensures SoundRecord(Created(c)) && Created(c).candidate == c.id
  {
  }

  lemma UpdateKeepsCandidate(r: Record, c: Candidate)
    ensures UpdateRecord(r, c).candidate == r.candidate
  {
  }

  lemma {:induction false} AcceptAllKeepsSound(s: Store, candidates: seq<Candidate>)
    requires Sound(s)
    ensures Sound(AcceptAll(s, candidates))
  {
    hide Sound, Accept;
    if candidates != [] {
      AcceptAllKeepsSound(s, candidates[..|candidates| - 1]);
      AcceptKeepsSound(AcceptAll(s, candidates[..|candidates| - 1]), candidates[|candidates| - 1]);
    }
  }

  lemma MissedIsSound(r: Record, seen: set<string>, run: int)
    requires SoundRecord(r)
    ensures SoundRecord(Missed(r, seen, run)) && Missed(r, seen, run).candidate == r.candidate
  {
    if !Terminal(r.lifecycle) { TransitionKeepsSound(r, Invalidated, run, "SOURCE_CANDIDATE_MISSING"); }
  }

  lemma GatheredKeepsSound(s: Store, candidates: seq<Candidate>, run: Option<int>)
    requires Sound(s)
    ensures Sound(Gathered(s, candidates, run))
  {
    hide SoundRecord, Missed, AcceptAll, SeenIn, SignalId;
    AcceptAllKeepsSound(s, candidates);
    var t := AcceptAll(s, candidates);
    if run.Some? {
      forall id | id in t.records
        ensures SoundRecord(Missed(t.records[id], SeenIn(candidates), run.value)) && Missed(t.records[id], SeenIn(candidates), run.value).candidate == id
      {
        MissedIsSound(t.records[id], SeenIn(candidates), run.value);
      }
    }
  }

  lemma PruneKeepsSound(before: Store, after: Store, limit: nat)
    requires Sound(before) && Pruned(before, after, limit)
    ensures Sound(after) && |after.records| <= limit
  {
    hide SoundRecord, PrunedBefore, SignalId, GoneSignal;
    forall signal | signal in after.candidateBySignal
      ensures after.candidateBySignal[signal] in after.records && SignalId(after.candidateBySignal[signal]) == signal
    {
      LiveSignal(before, after, limit, signal);
    }
    forall id | id in after.records ensures SignalId(id) in after.candidateBySignal {
      KeptSignal(before, after, limit, id);
    }
  }

  lemma LiveSignal(before: Store, after: Store, limit: nat, signal: string)
    requires Sound(before) && Pruned(before, after, limit) && signal in after.candidateBySignal
    ensures after.candidateBySignal[signal] in after.records && SignalId(after.candidateBySignal[signal]) == signal
  {
    hide SoundRecord, PrunedBefore, SignalId;
    assert !GoneSignal(before, after, signal);
  }

  lemma KeptSignal(before: Store, after: Store, limit: nat, id: string)
    requires Sound(before) && Pruned(before, after, limit) && id in after.records
    ensures SignalId(id) in after.candidateBySignal
  {
    hide SoundRecord, PrunedBefore, SignalId;
    assert !GoneSignal(before, after, SignalId(id));
  }

  /** No ACTIVE record is pruned while a WATCH or terminal one survives, and no WATCH while a terminal one does. */
  lemma PruningSparesTheLiving(before: Store, after: Store, limit: nat, gone: string, kept: string)
    requires Pruned(before, after, limit) && gone in before.records && gone !in after.records && kept in after.records
    ensures before.records[gone].lifecycle == Active ==> after.records[kept].lifecycle == Active
    ensures before.records[gone].lifecycle == Watch ==> !Terminal(after.records[kept].lifecycle)
  {
  }
}
