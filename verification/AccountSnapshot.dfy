/** Single-flight account snapshot (app/services/account_snapshot.py). Each critical section under the condition is one
    method; the code between two sections may interleave with every other thread. */
module AccountSnapshot {
  import opened Trading

  /** `id` identifies the content, capture time included. */
  datatype Snapshot = Snapshot(id: int, capturedAt: int)

  datatype Core = Core(
    snapshot: Option<Snapshot>, refreshing: bool, cacheHits: nat, refreshCount: nat,
    lastSuccess: Option<int>, refreshError: Option<int>)

  /** What a caller does when it leaves a critical section of `get`. */
  datatype Decision = Return(snapshot: Snapshot) | Wait(observed: Option<int>) | Fetch

  function Age(s: Snapshot, now: int): int { if now - s.capturedAt < 0 then 0 else now - s.capturedAt }

  function ObservedId(core: Core): Option<int> {
    if core.snapshot.Some? then Some(core.snapshot.value.id) else None
  }

  /** The first section of `get`: a bounded-fresh hit, a place in the queue, or the right to refresh. */
  function Entered(core: Core, forced: bool, now: int, freshness: int): (Core, Decision) {
    if !forced && core.snapshot.Some? && Age(core.snapshot.value, now) <= freshness
    then (core.(cacheHits := core.cacheHits + 1), Return(core.snapshot.value))
    else if core.refreshing then (core, Wait(ObservedId(core)))
    else (core.(refreshing := true), Fetch)
  }

  /** A waiter that was notified: the checks after `wait`, then the loop condition again. */
  function Woken(core: Core, forced: bool, observed: Option<int>, now: int, freshness: int): (Core, Decision) {
    if core.snapshot.Some? && (if forced then Some(core.snapshot.value.id) != observed else Age(core.snapshot.value, now) <= freshness)
    then (core.(cacheHits := core.cacheHits + 1), Return(core.snapshot.value))
    else if core.refreshing then (core, Wait(observed))
    else (core.(refreshing := true), Fetch)
  }

  function Published(core: Core, s: Snapshot): Core {
    Core(Some(s), false, core.cacheHits, core.refreshCount + 1, Some(s.capturedAt), None)
  }

  function Failed(core: Core, error: int): Core { core.(refreshing := false, refreshError := Some(error)) }

  function Invalidated(core: Core): Core { core.(snapshot := None) }

  class AccountSnapshotService {
    const freshness: int
    var snapshot: Option<Snapshot>
    var refreshing: bool
    var cacheHits: nat
    var refreshCount: nat
    var lastSuccess: Option<int>
    var refreshError: Option<int>

    function Abstract(): Core
      reads this
    {
      Core(snapshot, refreshing, cacheHits, refreshCount, lastSuccess, refreshError)
    }

    constructor (freshnessSeconds: int)
      requires 0 <= freshnessSeconds
      ensures freshness == freshnessSeconds && Abstract() == Core(None, false, 0, 0, None, None)
    {
      freshness := freshnessSeconds;
      snapshot, refreshing, cacheHits, refreshCount, lastSuccess, refreshError := None, false, 0, 0, None, None;
    }

    method Enter(forced: bool, now: int) returns (d: Decision)
      modifies this`cacheHits, this`refreshing
      ensures (Abstract(), d) == Entered(old(Abstract()), forced, now, freshness)
    {
      var observed := if snapshot.Some? then Some(snapshot.value.id) else None;
      if !forced && snapshot.Some? && Age(snapshot.value, now) <= freshness {
        cacheHits := cacheHits + 1;
        return Return(snapshot.value);
      }
      if refreshing { return Wait(observed); }
      refreshing := true;
      return Fetch;
    }

    method Wake(forced: bool, observed: Option<int>, now: int) returns (d: Decision)
      modifies this`cacheHits, this`refreshing
      ensures (Abstract(), d) == Woken(old(Abstract()), forced, observed, now, freshness)
    {
      if snapshot.Some? {
        if forced && Some(snapshot.value.id) != observed {
          cacheHits := cacheHits + 1;
          return Return(snapshot.value);
        }
        if !forced && Age(snapshot.value, now) <= freshness {
          cacheHits := cacheHits + 1;
          return Return(snapshot.value);
        }
      }
      if refreshing { return Wait(observed); }
      refreshing := true;
      return Fetch;
    }

    method Publish(s: Snapshot)
      modifies this
      ensures Abstract() == Published(old(Abstract()), s)
    {
      snapshot, refreshCount, lastSuccess, refreshError, refreshing := Some(s), refreshCount + 1, Some(s.capturedAt), None, false;
    }

    method Fail(error: int)
      modifies this`refreshError, this`refreshing
      ensures Abstract() == Failed(old(Abstract()), error)
    {
      refreshError, refreshing := Some(error), false;
    }

    method Invalidate()
      modifies this`snapshot
      ensures Abstract() == Invalidated(old(Abstract()))
    {
      snapshot := None;
    }
  }

  // ---------------------------------------------------------------- interleavings

  /** `began` and `fetchBegan` are step numbers of the run. */
  datatype Thread =
    | Waiting(forced: bool, observed: Option<int>, began: nat)
    | Fetching(forced: bool, began: nat, fetchBegan: nat)

  /** A completed `get`: what was returned, by whom it was fetched, and when it was published. */
  datatype Answer = Answer(
    thread: int, forced: bool, snapshot: Snapshot, began: nat, own: bool, publishedAt: nat, fetchBegan: nat, age: int)

  /** `publishedAt` and `fetchedFrom` date the stored snapshot; `fetcher` is the thread now refreshing. */
  datatype System = System(
    core: Core, threads: map<int, Thread>, fetcher: Option<int>, step: nat,
    publishedAt: nat, fetchedFrom: nat, answers: seq<Answer>)

  datatype Action =
    | Begin(thread: int, forced: bool, now: int)
    | Wake(thread: int, now: int)
    | FetchSucceeds(thread: int, snapshot: Snapshot)
    | FetchFails(thread: int, error: int)
    | Invalidate

  predicate Enabled(s: System, a: Action) {
    match a
    case Begin(t, _, _) => t !in s.threads
    case Wake(t, _) => t in s.threads && s.threads[t].Waiting?
    case FetchSucceeds(t, _) => t in s.threads && s.threads[t].Fetching?
    case FetchFails(t, _) => t in s.threads && s.threads[t].Fetching?
    case Invalidate => true
  }

  /** A thread leaves a critical section with `d`. */
  function Leave(s: System, core: Core, t: int, forced: bool, began: nat, now: int, d: Decision): System {
    match d
    case Return(snapshot) =>
      s.(core := core, threads := s.threads - {t},
         answers := s.answers + [Answer(t, forced, snapshot, began, false, s.publishedAt, s.fetchedFrom, Age(snapshot, now))])
    case Wait(observed) => s.(core := core, threads := s.threads[t := Waiting(forced, observed, began)])
    case Fetch => s.(core := core, threads := s.threads[t := Fetching(forced, began, s.step)], fetcher := Some(t))
  }

  function Effect(s: System, a: Action, freshness: int): System
    requires Enabled(s, a)
  {
    match a
    case Begin(t, forced, now) =>
      var (core, d) := Entered(s.core, forced, now, freshness);
      Leave(s, core, t, forced, s.step, now, d)
    case Wake(t, now) =>
      var w := s.threads[t];
      var (core, d) := Woken(s.core, w.forced, w.observed, now, freshness);
      Leave(s, core, t, w.forced, w.began, now, d)
    case FetchSucceeds(t, snapshot) =>
      var f := s.threads[t];
      s.(core := Published(s.core, snapshot), threads := s.threads - {t}, fetcher := None,
         publishedAt := s.step, fetchedFrom := f.fetchBegan,
         answers := s.answers + [Answer(t, f.forced, snapshot, f.began, true, s.step, f.fetchBegan, 0)])
    case FetchFails(t, error) =>
      s.(core := Failed(s.core, error), threads := s.threads - {t}, fetcher := None)
    case Invalidate => s.(core := Invalidated(s.core))
  }

  /** One step of the run; an action that is not enabled does nothing but pass time. */
  function Step(s: System, a: Action, freshness: int): System {
    var next := if Enabled(s, a) then Effect(s, a, freshness) else s;
    next.(step := s.step + 1)
  }

  function Run(s: System, actions: seq<Action>, freshness: int): System {
    if actions == [] then s else Step(Run(s, actions[..|actions| - 1], freshness), actions[|actions| - 1], freshness)
  }

  ghost predicate Initial(s: System) {
    s.core == Core(None, false, 0, 0, None, None) && s.threads == map[] && s.fetcher == None && s.answers == [] && s.publishedAt <= s.step && s.fetchedFrom <= s.step
  }

  // ---------------------------------------------------------------- the invariant

  /** At most one thread fetches, and the flag says whether one does. */
  ghost predicate SingleFlight(s: System) {
    && (s.core.refreshing <==> s.fetcher.Some?)
    && (s.fetcher.Some? ==> s.fetcher.value in s.threads)
    && (forall t :: t in s.threads ==> (s.threads[t].Fetching? <==> s.fetcher == Some(t)))
  }

  /** Whoever waits can tell a snapshot published since its call began by its id. */
  ghost predicate WaitersCanTell(s: System) {
    && s.publishedAt <= s.step && s.fetchedFrom <= s.step
    && (forall t :: t in s.threads ==> s.threads[t].began <= s.step)
    && (forall t :: t in s.threads && s.threads[t].Fetching? ==> s.threads[t].began <= s.threads[t].fetchBegan < s.step)
    && (forall t :: t in s.threads && s.threads[t].Waiting? && s.core.snapshot.Some? && Some(s.core.snapshot.value.id) != s.threads[t].observed ==>
          s.threads[t].began <= s.publishedAt)
  }

  predicate GoodAnswer(a: Answer, freshness: int) {
    && (a.own ==> a.began <= a.fetchBegan)
    && (a.forced ==> a.own || a.began <= a.publishedAt)
    && (!a.forced ==> a.own || a.age <= freshness)
  }

  ghost predicate Sound(s: System, freshness: int) {
    && SingleFlight(s) && WaitersCanTell(s)
    && s.core.cacheHits + s.core.refreshCount == |s.answers|
    && (forall i :: 0 <= i < |s.answers| ==> s.answers[i].began < s.step && GoodAnswer(s.answers[i], freshness))
  }

  lemma LeaveKeepsSound(s: System, core: Core, t: int, forced: bool, began: nat, now: int, d: Decision, freshness: int)
    requires Sound(s, freshness) && began <= s.step
    requires t in s.threads ==> s.threads[t].Waiting?
    requires d.Return? ==> s.core.snapshot == Some(d.snapshot) && core == s.core.(cacheHits := s.core.cacheHits + 1)
    requires d.Return? ==> if forced then began <= s.publishedAt else Age(d.snapshot, now) <= freshness
    requires d.Wait? ==> core == s.core && (s.core.snapshot.Some? && Some(s.core.snapshot.value.id) != d.observed ==> began <= s.publishedAt)
    requires d.Fetch? ==> !s.core.refreshing && core == s.core.(refreshing := true)
    ensures Sound(Leave(s, core, t, forced, began, now, d).(step := s.step + 1), freshness)
  {
  }

  lemma FetchEndKeepsSound(s: System, a: Action, freshness: int)
    requires Sound(s, freshness) && Enabled(s, a) && (a.FetchSucceeds? || a.FetchFails?)
    ensures Sound(Step(s, a, freshness), freshness)
  {
  }

  lemma StepKeepsSound(s: System, a: Action, freshness: int)
    requires Sound(s, freshness)
    ensures Sound(Step(s, a, freshness), freshness)
  {
    if Enabled(s, a) {
      match a
      case Begin(t, forced, now) =>
        hide Leave;
        var (core, d) := Entered(s.core, forced, now, freshness);
        LeaveKeepsSound(s, core, t, forced, s.step, now, d, freshness);
      case Wake(t, now) =>
        hide Leave;
        var w := s.threads[t];
        var (core, d) := Woken(s.core, w.forced, w.observed, now, freshness);
        LeaveKeepsSound(s, core, t, w.forced, w.began, now, d, freshness);
      case Invalidate =>
      case _ => hide Step; FetchEndKeepsSound(s, a, freshness);
    }
  }

  /** Under every interleaving: at most one refresh in flight, hits plus refreshes count the successful gets, a forced
      get returns its own fetch or a snapshot published after it began, and an unforced one its own fetch or one within
      the freshness bound. */
  lemma {:induction false} EveryInterleavingIsSound(s: System, actions: seq<Action>, freshness: int)
    requires Initial(s)
    ensures Sound(Run(s, actions, freshness), freshness)
  {
    hide Step;
    if actions != [] {
      EveryInterleavingIsSound(s, actions[..|actions| - 1], freshness);
      StepKeepsSound(Run(s, actions[..|actions| - 1], freshness), actions[|actions| - 1], freshness);
    }
  }

  // ---------------------------------------------------------------- what is not promised, and exactly when

  /** Every answer to a call begun at or after `from` carries data fetched at or after `from`. */
  ghost predicate FreshSince(s: System, from: nat) {
    forall i :: 0 <= i < |s.answers| && s.answers[i].began >= from ==> s.answers[i].fetchBegan >= from
  }

  /** Nothing fetched before `from` can still be handed to a call begun at or after it. */
  ghost predicate Fenced(s: System, from: nat) {
    && from <= s.step && FreshSince(s, from)
    && (s.core.snapshot.Some? ==> s.fetchedFrom >= from)
    && (forall t :: t in s.threads && s.threads[t].Fetching? ==> s.threads[t].fetchBegan >= from)
  }

  lemma StepKeepsFenced(s: System, a: Action, freshness: int, from: nat)
    requires Fenced(s, from)
    ensures Fenced(Step(s, a, freshness), from)
  {
  }

  lemma {:induction false} RunsKeepFenced(s: System, actions: seq<Action>, freshness: int, from: nat)
    requires Fenced(s, from)
    ensures Fenced(Run(s, actions, freshness), from)
  {
    hide Step, Fenced;
    if actions != [] {
      RunsKeepFenced(s, actions[..|actions| - 1], freshness, from);
      StepKeepsFenced(Run(s, actions[..|actions| - 1], freshness), actions[|actions| - 1], freshness, from);
    }
  }

  /** Three actions, one after the other. */
  lemma RunOfThree(s: System, a: Action, b: Action, c: Action, freshness: int)
    ensures Run(s, [a, b, c], freshness) == Step(Step(Step(s, a, freshness), b, freshness), c, freshness)
  {
    hide Step;
    assert [a, b, c][..2] == [a, b] && [a, b][..1] == [a] && [a][..0] == [];
    assert Run(s, [], freshness) == s;
    assert Run(s, [a], freshness) == Step(s, a, freshness);
    assert Run(s, [a, b], freshness) == Step(Step(s, a, freshness), b, freshness);
  }

  /** A call that begins after invalidation, served from a refresh already in flight when it was invalidated. */
  lemma InFlightRefreshSurvivesInvalidation(s: System, freshness: int, t: int) returns (actions: seq<Action>)
    requires Sound(s, freshness) && 0 <= freshness && s.core.refreshing && t !in s.threads
    ensures !FreshSince(Run(s, [Invalidate] + actions, freshness), s.step)
  {
    hide Run;
    var snapshot := Snapshot(0, 0);
    var f := s.fetcher.value;
    actions := [FetchSucceeds(f, snapshot), Begin(t, false, 0)];
    RunOfThree(s, Invalidate, actions[0], actions[1], freshness);
    assert [Invalidate] + actions == [Invalidate, actions[0], actions[1]];
    var end := Run(s, [Invalidate] + actions, freshness);
    assert s.threads[f].fetchBegan < s.step;
    var last := end.answers[|end.answers| - 1];
    assert last.fetchBegan == s.threads[f].fetchBegan && last.began == s.step + 2;
  }

  lemma {:induction false} RunAfterFirst(s: System, first: Action, actions: seq<Action>, freshness: int)
    ensures Run(s, [first] + actions, freshness) == Run(Step(s, first, freshness), actions, freshness)
  {
    hide Step;
    var all := [first] + actions;
    if actions == [] {
      assert all[..0] == [] && Run(s, [], freshness) == s;
    } else {
      assert all[..|all| - 1] == [first] + actions[..|actions| - 1];
      RunAfterFirst(s, first, actions[..|actions| - 1], freshness);
    }
  }

  /** Invalidation guarantees that calls begun after it see only data fetched after it, whatever happens next, if and
      only if no refresh was in flight when it ran. */
  lemma InvalidationFencesExactlyWhenIdle(s: System, freshness: int, t: int)
    requires Sound(s, freshness) && 0 <= freshness && t !in s.threads
    ensures (forall actions :: FreshSince(Run(s, [Invalidate] + actions, freshness), s.step)) <==> !s.core.refreshing
  {
    if s.core.refreshing {
      var actions := InFlightRefreshSurvivesInvalidation(s, freshness, t);
      assert !FreshSince(Run(s, [Invalidate] + actions, freshness), s.step);
    } else {
      var after := Step(s, Invalidate, freshness);
      assert Fenced(after, s.step);
      forall actions ensures FreshSince(Run(s, [Invalidate] + actions, freshness), s.step) {
        RunAfterFirst(s, Invalidate, actions, freshness);
        RunsKeepFenced(after, actions, freshness, s.step);
      }
    }
  }

  /** The call thread `t` began at step `from`, if answered, was answered with data whose fetch began no earlier. */
  ghost predicate AnsweredAfresh(s: System, t: int, from: nat) {
    forall i :: 0 <= i < |s.answers| && s.answers[i].thread == t && s.answers[i].began == from ==> s.answers[i].fetchBegan >= from
  }

  /** The call is fetching for itself, or over. */
  ghost predicate FetchesForItself(s: System, t: int, from: nat) {
    && from < s.step && AnsweredAfresh(s, t, from)
    && (t in s.threads && s.threads[t].began == from ==> s.threads[t].Fetching? && s.threads[t].fetchBegan >= from)
  }

  lemma {:induction false} RunsKeepFetching(s: System, actions: seq<Action>, freshness: int, t: int, from: nat)
    requires FetchesForItself(s, t, from)
    ensures FetchesForItself(Run(s, actions, freshness), t, from)
  {
    hide Step, FetchesForItself;
    if actions != [] {
      RunsKeepFetching(s, actions[..|actions| - 1], freshness, t, from);
      StepKeepsFetching(Run(s, actions[..|actions| - 1], freshness), actions[|actions| - 1], freshness, t, from);
    }
  }

  lemma StepKeepsFetching(s: System, a: Action, freshness: int, t: int, from: nat)
    requires FetchesForItself(s, t, from)
    ensures FetchesForItself(Step(s, a, freshness), t, from)
  {
  }

  /** A forced get that finds a refresh in flight may be answered with data whose fetch began before the call. */
  lemma ForcedGetMayShareAnEarlierFetch(s: System, freshness: int, t: int, now: int, id: int)
    requires Sound(s, freshness) && s.core.refreshing && t !in s.threads && ObservedId(s.core) != Some(id)
    ensures var end := Run(s, [Begin(t, true, now), FetchSucceeds(s.fetcher.value, Snapshot(id, 0)), Wake(t, 0)], freshness);
      && |end.answers| == |s.answers| + 2
      && (var last := end.answers[|s.answers| + 1];
          last.thread == t && last.forced && !last.own && last.fetchBegan < last.began == s.step < last.publishedAt)
  {
    hide Run;
    RunOfThree(s, Begin(t, true, now), FetchSucceeds(s.fetcher.value, Snapshot(id, 0)), Wake(t, 0), freshness);
  }

  /** Any answer a forced get receives carries data whose fetch began no earlier than the call, whatever happens next, if
      and only if no refresh was in flight when it began. */
  lemma ForcedGetIsFreshExactlyWhenIdle(s: System, freshness: int, t: int, now: int)
    requires Sound(s, freshness) && t !in s.threads
    ensures (forall actions :: AnsweredAfresh(Run(s, [Begin(t, true, now)] + actions, freshness), t, s.step)) <==> !s.core.refreshing
  {
    hide Run;
    var begin := Begin(t, true, now);
    if s.core.refreshing {
      var id := if ObservedId(s.core) == Some(0) then 1 else 0;
      ForcedGetMayShareAnEarlierFetch(s, freshness, t, now, id);
      var actions := [FetchSucceeds(s.fetcher.value, Snapshot(id, 0)), Wake(t, 0)];
      assert [begin] + actions == [begin, actions[0], actions[1]];
      assert !AnsweredAfresh(Run(s, [begin] + actions, freshness), t, s.step);
    } else {
      var after := Step(s, begin, freshness);
      assert FetchesForItself(after, t, s.step);
      forall actions ensures AnsweredAfresh(Run(s, [begin] + actions, freshness), t, s.step) {
        RunAfterFirst(s, begin, actions, freshness);
        RunsKeepFetching(after, actions, freshness, t, s.step);
      }
    }
  }

  // ---------------------------------------------------------------- when the cache answers

  /** The stored snapshot answers a call: an unforced one while it is within the bound, a forced waiter once it is another one
      than the call saw. */
  predicate Answers(core: Core, forced: bool, waited: bool, observed: Option<int>, now: int, freshness: int) {
    && core.snapshot.Some?
    && (!forced ==> now <= core.snapshot.value.capturedAt + freshness)
    && (forced ==> waited && observed != Some(core.snapshot.value.id))
  }

  /** What thread `t` finds when it enters with a new call or wakes from waiting: the cache answers it exactly when it may and
      then with the stored snapshot; otherwise it waits exactly while another thread refreshes, remembering what its call saw
      first, and else it is the one that refreshes. */
  ghost predicate Served(before: System, after: System, t: int, forced: bool, waited: bool, observed: Option<int>, began: nat, now: int, freshness: int) {
    if Answers(before.core, forced, waited, observed, now, freshness) then
      && after.core == before.core.(cacheHits := before.core.cacheHits + 1) && after.fetcher == before.fetcher
      && t !in after.threads && |after.answers| == |before.answers| + 1
      && var answer := after.answers[|before.answers|];
      answer.thread == t && answer.forced == forced && !answer.own && answer.began == began && Some(answer.snapshot) == before.core.snapshot
    else
      && after.answers == before.answers && t in after.threads
      && after.core == before.core.(refreshing := true)
      && (before.fetcher.Some? ==> after.fetcher == before.fetcher && after.threads[t] == Waiting(forced, observed, began))
      && (before.fetcher.None? ==> after.fetcher == Some(t) && after.threads[t] == Fetching(forced, began, before.step))
  }

  lemma CallsAreServed(s: System, a: Action, freshness: int)
    requires Sound(s, freshness) && 0 <= freshness && Enabled(s, a) && (a.Begin? || a.Wake?)
    ensures a.Begin? ==>
      Served(s, Step(s, a, freshness), a.thread, a.forced, false, if s.core.snapshot.Some? then Some(s.core.snapshot.value.id) else None, s.step, a.now, freshness)
    ensures a.Wake? ==>
      var w := s.threads[a.thread];
      Served(s, Step(s, a, freshness), a.thread, w.forced, true, w.observed, w.began, a.now, freshness)
  {
  }

  /** What the end of a refresh and an invalidation leave: a success replaces the snapshot, counts, clears the error and
      answers its own call; a failure only records its error; an invalidation only drops the snapshot. */
  lemma RefreshesEnd(s: System, a: Action, freshness: int)
    requires Sound(s, freshness) && Enabled(s, a)
    ensures var after := Step(s, a, freshness);
      match a
      case FetchSucceeds(t, snapshot) =>
        && after.core == Core(Some(snapshot), false, s.core.cacheHits, s.core.refreshCount + 1, Some(snapshot.capturedAt), None)
        && after.fetcher == None && after.threads == s.threads - {t} && |after.answers| == |s.answers| + 1
        && after.answers[|s.answers|].snapshot == snapshot && after.answers[|s.answers|].own && after.answers[|s.answers|].thread == t
      case FetchFails(t, error) =>
        && after.core == Core(s.core.snapshot, false, s.core.cacheHits, s.core.refreshCount, s.core.lastSuccess, Some(error))
        && after.fetcher == None && after.threads == s.threads - {t} && after.answers == s.answers
      case Invalidate =>
        && after.core == Core(None, s.core.refreshing, s.core.cacheHits, s.core.refreshCount, s.core.lastSuccess, s.core.refreshError)
        && after.threads == s.threads && after.fetcher == s.fetcher && after.answers == s.answers
      case _ => true
  {
  }
}
