/** What every sequence of audits keeps. */
module OrderAuditRuns {
  import opened Trading
  import opened OrderAudit

  // ---------------------------------------------------------------- sums over recorded fills

  /** Sum of `weight` over a set. */
  ghost function SetSum(ids: set<string>, weight: string -> real): real {
    if ids == {} then 0.0 else
      var id :| id in ids;
      SetSum(ids - {id}, weight) + weight(id)
  }

  lemma {:induction false} SetSumRemove(ids: set<string>, id: string, weight: string -> real)
    requires id in ids
    ensures SetSum(ids, weight) == SetSum(ids - {id}, weight) + weight(id)
  {
    var other :| other in ids && SetSum(ids, weight) == SetSum(ids - {other}, weight) + weight(other);
    if other != id {
      SetSumRemove(ids - {other}, id, weight);
      SetSumRemove(ids - {id}, other, weight);
      assert ids - {other} - {id} == ids - {id} - {other};
    }
  }

  lemma {:induction false} SetSumCongruent(ids: set<string>, weight: string -> real, other: string -> real)
    requires forall id :: id in ids ==> weight(id) == other(id)
    ensures SetSum(ids, weight) == SetSum(ids, other)
  {
    if ids != {} {
      var id :| id in ids;
      SetSumRemove(ids, id, weight);
      SetSumRemove(ids, id, other);
      SetSumCongruent(ids - {id}, weight, other);
    }
  }

  /** Positive weights: a larger set sums to more, and to the same only if it is the same set. */
  lemma {:induction false} SetSumMonotone(small: set<string>, large: set<string>, weight: string -> real)
    requires small <= large && forall id :: id in large ==> weight(id) > 0.0
    ensures SetSum(small, weight) <= SetSum(large, weight)
    ensures SetSum(small, weight) == SetSum(large, weight) ==> small == large
  {
    if small != large {
      var id :| id in large && id !in small;
      SetSumRemove(large, id, weight);
      SetSumMonotone(small, large - {id}, weight);
    }
  }

  function QuantityAt(fills: map<string, FillRow>): string -> real {
    id => if id in fills then fills[id].quantity else 0.0
  }

  function NotionalAt(fills: map<string, FillRow>): string -> real {
    id => if id in fills then fills[id].quantity * fills[id].price else 0.0
  }

  ghost function RecordedQuantity(ids: set<string>, fills: map<string, FillRow>): real { SetSum(ids, QuantityAt(fills)) }
  ghost function RecordedNotional(ids: set<string>, fills: map<string, FillRow>): real { SetSum(ids, NotionalAt(fills)) }

  /** Every one of `arrived` has its own row of `order` in `fills`. */
  ghost predicate Stored(arrived: seq<Fill>, order: int, fills: map<string, FillRow>) {
    forall i :: 0 <= i < |arrived| ==> arrived[i].id in fills && SameFill(fills[arrived[i].id], order, arrived[i])
  }

  /** For stored fills, the list sums are the sums over the recorded ids. */
  lemma {:induction false} ListSumsAreRecordedSums(arrived: seq<Fill>, order: int, fills: map<string, FillRow>)
    requires ProperFills(arrived) && Stored(arrived, order, fills)
    ensures Quantity(arrived) == RecordedQuantity(Ids(arrived), fills)
    ensures Notional(arrived) == RecordedNotional(Ids(arrived), fills)
  {
    if arrived != [] {
      var rest, last := arrived[..|arrived| - 1], arrived[|arrived| - 1];
      ListSumsAreRecordedSums(rest, order, fills);
      assert Ids(arrived) - {last.id} == Ids(rest);
      SetSumRemove(Ids(arrived), last.id, QuantityAt(fills));
      SetSumRemove(Ids(arrived), last.id, NotionalAt(fills));
      assert SameFill(fills[last.id], order, last);
    }
  }

  lemma {:induction false} IdsAreStored(arrived: seq<Fill>, order: int, fills: map<string, FillRow>)
    requires ProperFills(arrived) && Stored(arrived, order, fills)
    ensures forall id :: id in Ids(arrived) ==> id in fills && fills[id].order == order && fills[id].quantity > 0.0
  {
    if arrived != [] {
      IdsAreStored(arrived[..|arrived| - 1], order, fills);
    }
  }

  // ---------------------------------------------------------------- a sound row

  /** Executed and average are exactly the sum and the weighted mean of the recorded fills, which all belong to the
      order, and the status fits the quantities. */
  ghost predicate SoundAudit(a: Audit, order: int, fills: map<string, FillRow>) {
    && a.requested > 0.0
    && (forall id :: id in a.tradeIds ==> id in fills && fills[id].order == order && fills[id].quantity > 0.0)
    && a.executed == RecordedQuantity(a.tradeIds, fills)
    && a.average == MeanOf(RecordedNotional(a.tradeIds, fills), a.executed)
    && ValidateEconomics(a.role, a.requested, a.executed, a.average, a.status, a.actual, None) == Ok(true)
    && (!Protective(a.role) ==> a.actual == Some(a.exchange))
  }

  ghost predicate Sound(book: Book) {
    forall order :: order in book.orders && book.orders[order].audit.Some? ==> SoundAudit(book.orders[order].audit.value, order, book.fills)
  }

  // ---------------------------------------------------------------- one audit

  /** Fill rows are only ever added. */
  ghost predicate Grows(before: map<string, FillRow>, after: map<string, FillRow>) {
    forall id :: id in before ==> id in after && after[id] == before[id]
  }

  lemma {:induction false} PersistFillsStores(fills: map<string, FillRow>, order: int, arrived: seq<Fill>)
    requires PersistFills(fills, order, arrived).Ok?
    ensures Grows(fills, PersistFills(fills, order, arrived).value)
    ensures Stored(arrived, order, PersistFills(fills, order, arrived).value)
  {
    if arrived != [] {
      PersistFillsStores(fills, order, arrived[..|arrived| - 1]);
    }
  }

  lemma SoundSurvivesGrowth(a: Audit, order: int, before: map<string, FillRow>, after: map<string, FillRow>)
    requires SoundAudit(a, order, before) && Grows(before, after)
    ensures SoundAudit(a, order, after)
  {
    hide ValidateEconomics, MeanOf, Protective;
    SetSumCongruent(a.tradeIds, QuantityAt(before), QuantityAt(after));
    SetSumCongruent(a.tradeIds, NotionalAt(before), NotionalAt(after));
  }

  lemma NewAuditIsSound(e: Evidence, order: int, fills: map<string, FillRow>, now: int)
    requires Verified(e) && Stored(e.fills, order, fills)
    ensures SoundAudit(AuditOf(e, now), order, fills)
  {
    hide ValidateEconomics, MeanOf, Protective, Quantity, Notional, Ids, Stored, ProperFills;
    ListSumsAreRecordedSums(e.fills, order, fills);
    IdsAreStored(e.fills, order, fills);
  }

  lemma AuditKeepsSound(book: Book, order: int, e: Evidence, now: int)
    requires Sound(book) && Verified(e)
    ensures Sound(Audited(book, order, e, now))
  {
    hide SoundAudit, Verified, AuditOf, Stored, Grows, Checked, PersistFills;
    if Persisted(book, order, e, now).Ok? {
      PersistFillsStores(book.fills, order, e.fills);
      var after := Audited(book, order, e, now);
      NewAuditIsSound(e, order, after.fills, now);
      forall other | other in book.orders && other != order && book.orders[other].audit.Some?
        ensures SoundAudit(after.orders[other].audit.value, other, after.fills)
      {
        SoundSurvivesGrowth(book.orders[other].audit.value, other, book.fills, after.fills);
      }
    }
  }

  /** Once the old fills are all there and none conflicts with its row, executed cannot regress and the average
      cannot change without a new fill: those two progression checks never fire on such evidence. */
  lemma RegressionChecksAreImplied(a: Audit, order: int, e: Evidence, before: map<string, FillRow>, after: map<string, FillRow>)
    requires SoundAudit(a, order, before) && Verified(e)
    requires a.tradeIds <= Ids(e.fills) && Grows(before, after) && Stored(e.fills, order, after)
    ensures a.executed <= e.executed
    ensures a.executed == e.executed ==> a.average == e.average && a.tradeIds == Ids(e.fills)
  {
    hide ValidateEconomics, MeanOf, Quantity, Notional, Ids, Stored, ProperFills;
    SoundSurvivesGrowth(a, order, before, after);
    ListSumsAreRecordedSums(e.fills, order, after);
    IdsAreStored(e.fills, order, after);
    SetSumMonotone(a.tradeIds, Ids(e.fills), QuantityAt(after));
  }

  // ---------------------------------------------------------------- progress of one row

  /** What may happen to a canonical payload: nothing immutable changes, fills and executed only grow, the status
      moves forward, and a FILLED order is frozen but for the verification time. */
  ghost predicate Progress(a: Audit, b: Audit) {
    && a.role == b.role && a.client == b.client && a.exchange == b.exchange && a.requested == b.requested
    && (a.actual.Some? ==> b.actual == a.actual)
    && a.tradeIds <= b.tradeIds && a.executed <= b.executed
    && (a.executed == b.executed ==> a.tradeIds == b.tradeIds && a.average == b.average)
    && TransitionAllowed(a.status, b.status)
    && (a.status == Filled ==> b == a.(verifiedAt := b.verifiedAt))
  }

  lemma AuditMakesProgress(book: Book, order: int, e: Evidence, now: int)
    requires Sound(book) && Verified(e) && order in book.orders && book.orders[order].audit.Some?
    ensures var after := Audited(book, order, e, now);
      order in after.orders && after.orders[order].audit.Some? && Progress(book.orders[order].audit.value, after.orders[order].audit.value)
  {
    hide PersistFills, Stored, Grows, MeanOf, Quantity, Notional, Ids, ProperFills, RecordedQuantity, RecordedNotional;
    var a := book.orders[order].audit.value;
    assert SoundAudit(a, order, book.fills);
    var r := Persisted(book, order, e, now);
    if r.Ok? {
      PersistFillsStores(book.fills, order, e.fills);
      RegressionChecksAreImplied(a, order, e, book.fills, r.value.fills);
      var b := r.value.orders[order].audit.value;
      assert b == AuditOf(e, now);
      if a.status == Filled {
        assert a.executed == a.requested && e.executed == e.requested;
        assert a.actual.Some?;
      }
    }
  }

  lemma ProgressIsTransitive(a: Audit, b: Audit, c: Audit)
    requires Progress(a, b) && Progress(b, c)
    ensures Progress(a, c)
  {
  }

  // ---------------------------------------------------------------- runs

  datatype Turn = Turn(order: int, evidence: Evidence, now: int)

  function Run(book: Book, turns: seq<Turn>): Book {
    if turns == [] then book
    else
      var last := turns[|turns| - 1];
      Audited(Run(book, turns[..|turns| - 1]), last.order, last.evidence, last.now)
  }

  ghost predicate AllVerified(turns: seq<Turn>) {
    forall i :: 0 <= i < |turns| ==> Verified(turns[i].evidence)
  }

  /** Over every sequence of audits of any orders, accepted or refused, the book stays sound. */
  lemma {:induction false} RunsKeepSound(book: Book, turns: seq<Turn>)
    requires Sound(book) && AllVerified(turns)
    ensures Sound(Run(book, turns))
  {
    hide Audited, Sound, Verified;
    if turns != [] {
      RunsKeepSound(book, turns[..|turns| - 1]);
      var last := turns[|turns| - 1];
      AuditKeepsSound(Run(book, turns[..|turns| - 1]), last.order, last.evidence, last.now);
    }
  }

  /** Between any two moments of a run, a canonical order has made progress: in particular once FILLED it never
      changes again except for its time stamps. */
  lemma {:induction false} RunsMakeProgress(book: Book, turns: seq<Turn>, order: int)
    requires Sound(book) && AllVerified(turns) && order in book.orders && book.orders[order].audit.Some?
    ensures var after := Run(book, turns);
      order in after.orders && after.orders[order].audit.Some? && Progress(book.orders[order].audit.value, after.orders[order].audit.value)
  {
    hide Sound, Verified, Progress, Persisted;
    if turns == [] {
      ProgressIsReflexive(book.orders[order].audit.value);
    } else {
      var init, last := turns[..|turns| - 1], turns[|turns| - 1];
      RunsKeepSound(book, init);
      RunsMakeProgress(book, init, order);
      var middle := Run(book, init);
      if last.order == order {
        AuditMakesProgress(middle, order, last.evidence, last.now);
        ProgressIsTransitive(book.orders[order].audit.value, middle.orders[order].audit.value, Run(book, turns).orders[order].audit.value);
      } else {
        OtherRowsUntouched(middle, last.order, last.evidence, last.now, order);
      }
    }
  }

  lemma ProgressIsReflexive(a: Audit)
    ensures Progress(a, a)
  {
  }

  lemma OtherRowsUntouched(book: Book, order: int, e: Evidence, now: int, other: int)
    requires other in book.orders && other != order
    ensures var after := Audited(book, order, e, now); other in after.orders && after.orders[other] == book.orders[other]
  {
  }

  /** A persisted audit reads back as exactly what was written. */
  lemma RecordReadsBack(book: Book, order: int, e: Evidence, now: int)
    requires Verified(e) && Persisted(book, order, e, now).Ok?
    ensures var row := Audited(book, order, e, now).orders[order]; Record(row) == Ok(AuditOf(e, now))
  {
    hide ValidateEconomics, PersistFills, ProperFills, Quantity, Notional;
  }

  /** Every canonical row reads back as its payload: columns and payload agree and the economics are valid. */
  ghost predicate ReadsBack(book: Book) {
    forall order :: order in book.orders && book.orders[order].audit.Some? ==> Record(book.orders[order]) == Ok(book.orders[order].audit.value)
  }

  /** However audits succeed and fail, no canonical row ever becomes unreadable. */
  lemma {:induction false} RunsReadBack(book: Book, turns: seq<Turn>)
    requires ReadsBack(book) && AllVerified(turns)
    ensures ReadsBack(Run(book, turns))
  {
    hide Record, Verified, Persisted;
    if turns != [] {
      var init, last := turns[..|turns| - 1], turns[|turns| - 1];
      RunsReadBack(book, init);
      var before := Run(book, init);
      if Persisted(before, last.order, last.evidence, last.now).Ok? {
        RecordReadsBack(before, last.order, last.evidence, last.now);
        WrittenRow(before, last.order, last.evidence, last.now);
      }
    }
  }

  lemma WrittenRow(book: Book, order: int, e: Evidence, now: int)
    requires Persisted(book, order, e, now).Ok?
    ensures var after := Audited(book, order, e, now);
      && after.orders.Keys == book.orders.Keys + {order} && after.orders[order].audit == Some(AuditOf(e, now))
      && forall other :: other in book.orders && other != order ==> after.orders[other] == book.orders[other]
  {
    hide PersistFills;
  }
}
