/** Where two components meet: the protective lifecycle accepts a partial close that every position reconciler refuses. */
module PartialCloses {
  import opened Trading
  import PL = ProtectiveLedger
  import PR = ProtectiveRuns
  import Lifecycle = ProtectiveLifecycle
  import R = Reconcilers

  /** A turn that recorded protective fills of an open trade without closing it. */
  ghost predicate PartlyClosed(s: PL.State, ev: Lifecycle.Evidence) {
    && !s.memory.closed && !s.durable.closed && s.memory.executed == s.durable.executed
    && PL.Reconciled(s, ev).Ok? && PL.Observe(s.memory, ev).Ok? && PL.Observe(s.memory, ev).value.Some?
    && !PL.Step(s, ev).durable.closed
  }

  /** What remains open after such a turn is positive and less than the entry quantity. */
  lemma SomethingRemains(s: PL.State, ev: Lifecycle.Evidence)
    requires PartlyClosed(s, ev)
    ensures ev.position.Some? && 0.0 < ev.position.value.quantity < s.durable.executed
    ensures PL.Step(s, ev).durable.EffectiveOpen() == ev.position.value.quantity
  {
    hide PL.Observe, PL.Unrecorded, PL.EventsFor, PL.PartialCount, Lifecycle.Total;
    PR.AcceptedTurnMatchesExchange(s, ev);
    PR.ObservationFacts(s.memory, ev);
    var obs := PL.Observe(s.memory, ev).value.value;
    PR.FillsAreGood(ev.payloads, PR.AlgoOf(ev, obs.reason));
    PositiveTotal(obs.fills);
  }

  lemma PositiveTotal(fills: seq<Lifecycle.Fill>)
    requires fills != [] && PR.GoodFills(fills)
    ensures Lifecycle.Total(fills) > 0.0
  {
    PR.TotalGrows(fills, 0, |fills|);
    assert fills[..|fills|] == fills && fills[..0] == [];
  }

  /** The verified partial close leaves the books in a state no reconciler accepts: all of them compare the live
      position with the entry quantity, not with what remains. */
  lemma PartialCloseBlocksReconcilers(s: PL.State, ev: Lifecycle.Evidence, trades: seq<R.Trade>, positions: seq<R.Position>, i: nat, j: nat)
    requires PartlyClosed(s, ev) && i < |trades| && j < |positions|
    requires trades[i].symbol == positions[j].symbol && trades[i].executed == s.durable.executed
    requires ev.position.Some? ==> Abs(positions[j].amount) == ev.position.value.quantity
    ensures !R.Agree(trades, positions)
  {
    hide PartlyClosed, R.Agree;
    SomethingRemains(s, ev);
    if R.Agree(trades, positions) {
      R.AgreementIsEntryQuantity(trades, positions, i, j);
    }
  }
}
