/** Bounded retention as the long-lived stores do it: sort the entries, drop the overflow from the front. */
module Retention {
  import opened Trading

  /** An entry of a dictionary with its sort key. */
  datatype Item = Item(key: string, rank: nat, time: int, tie: string)

  predicate Older(a: Item, b: Item) {
    a.rank < b.rank || (a.rank == b.rank && (a.time < b.time || (a.time == b.time && TextLess(a.tie, b.tie))))
  }

  lemma OlderAsymmetric(a: Item, b: Item)
    requires Older(a, b)
    ensures !Older(b, a)
  {
    hide TextLess;
    TextLessAsymmetric(a.tie, b.tie);
  }

  lemma OlderSplits(a: Item, b: Item, c: Item)
    requires Older(a, c)
    ensures Older(a, b) || Older(b, c)
  {
    hide TextLess;
    if TextLess(a.tie, c.tie) { TextLessSplits(a.tie, b.tie, c.tie); }
  }

  // ---------------------------------------------------------------- sorting

  ghost predicate Ordered(list: seq<Item>) {
    forall i, j :: 0 <= i < j < |list| ==> !Older(list[j], list[i])
  }

  function Insert(list: seq<Item>, r: Item): (out: seq<Item>)
    ensures |out| == |list| + 1
  {
    if list == [] || !Older(r, list[|list| - 1]) then list + [r]
    else Insert(list[..|list| - 1], r) + [list[|list| - 1]]
  }

  lemma {:induction false} InsertMembers(list: seq<Item>, r: Item)
    ensures multiset(Insert(list, r)) == multiset(list) + multiset{r}
  {
    if list != [] && Older(r, list[|list| - 1]) {
      InsertMembers(list[..|list| - 1], r);
      assert list == list[..|list| - 1] + [list[|list| - 1]];
    }
  }

  lemma {:induction false} InsertKeepsOrder(list: seq<Item>, r: Item)
    requires Ordered(list)
    ensures Ordered(Insert(list, r))
  {
    hide Older;
    if list != [] {
      var init, last := list[..|list| - 1], list[|list| - 1];
      if Older(r, last) {
        InsertKeepsOrder(init, r);
        var placed := Insert(init, r);
        forall i | 0 <= i < |placed| ensures !Older(last, placed[i]) {
          InsertMembers(init, r);
          assert placed[i] in multiset(placed);
          assert placed[i] in init || placed[i] == r;
          OlderAsymmetric(r, last);
        }
      } else {
        forall i | 0 <= i < |list| ensures !Older(r, list[i]) {
          if Older(r, list[i]) { OlderSplits(r, last, list[i]); }
        }
      }
    }
  }

  /** Every item once, oldest first. */
  ghost predicate Sorts(list: seq<Item>, items: map<string, Item>) {
    && Ordered(list) && |list| == |items|
    && (forall i :: 0 <= i < |list| ==> list[i].key in items && items[list[i].key] == list[i])
    && (forall id :: id in items ==> exists i :: 0 <= i < |list| && list[i].key == id)
    && (forall i, j :: 0 <= i < j < |list| ==> list[i].key != list[j].key)
  }

  ghost predicate Keyed(items: map<string, Item>) {
    forall id :: id in items ==> items[id].key == id
  }

  lemma InsertSorts(list: seq<Item>, done: map<string, Item>, r: Item)
    requires Sorts(list, done) && r.key !in done
    ensures Sorts(Insert(list, r), done[r.key := r])
  {
    hide Older, Insert, Ordered;
    var out, all := Insert(list, r), done[r.key := r];
    InsertKeepsOrder(list, r);
    InsertMembers(list, r);
    forall i | 0 <= i < |out| ensures out[i].key in all && all[out[i].key] == out[i] {
      assert out[i] in multiset(out);
      assert out[i] in list || out[i] == r;
    }
    forall id | id in all ensures exists i :: 0 <= i < |out| && out[i].key == id {
      assert all[id] in multiset(out) by {
        if id != r.key {
          var i :| 0 <= i < |list| && list[i].key == id;
          assert list[i] in multiset(list);
        }
      }
      assert all[id] in out;
    }
    DistinctByCount(out, list, r);
  }

  /** Adding an item with a new key to a list with distinct keys keeps them distinct. */
  lemma DistinctByCount(out: seq<Item>, list: seq<Item>, r: Item)
    requires multiset(out) == multiset(list) + multiset{r}
    requires forall i, j :: 0 <= i < j < |list| ==> list[i].key != list[j].key
    requires forall i :: 0 <= i < |list| ==> list[i].key != r.key
    ensures forall i, j :: 0 <= i < j < |out| ==> out[i].key != out[j].key
  {
    forall i, j | 0 <= i < j < |out| ensures out[i].key != out[j].key {
      if out[i].key == out[j].key {
        assert out[i] in multiset(out) && out[j] in multiset(out);
        assert (out[i] in list || out[i] == r) && (out[j] in list || out[j] == r);
        assert out[i] == out[j];
        TwiceInSequence(out, i, j);
        AtMostOnce(list, out[i]);
      }
    }
  }

  lemma {:induction false} AtMostOnce(list: seq<Item>, r: Item)
    requires forall i, j :: 0 <= i < j < |list| ==> list[i].key != list[j].key
    ensures multiset(list)[r] <= 1
  {
    if list != [] {
      AtMostOnce(list[..|list| - 1], r);
      assert list == list[..|list| - 1] + [list[|list| - 1]];
      if list[|list| - 1] == r { assert r !in list[..|list| - 1]; }
    }
  }

  method SortItems(items: map<string, Item>) returns (list: seq<Item>)
    requires Keyed(items)
    ensures Sorts(list, items)
  {
    hide Sorts, Insert;
    list := [];
    var pending, done := items.Keys, map[];
    assert Sorts(list, done) by { EmptySorts(); }
    while pending != {}
      invariant pending <= items.Keys && done.Keys == items.Keys - pending
      invariant forall id :: id in done ==> done[id] == items[id]
      invariant Sorts(list, done)
      decreases |pending|
    {
      var id :| id in pending;
      InsertSorts(list, done, items[id]);
      list := Insert(list, items[id]);
      done, pending := done[id := items[id]], pending - {id};
    }
    assert done == items;
  }

  /** Every dictionary can be sorted. */
  lemma {:induction false} SortExists(items: map<string, Item>) returns (list: seq<Item>)
    requires Keyed(items)
    ensures Sorts(list, items)
    decreases |items|
  {
    hide Sorts, Insert;
    if items == map[] {
      EmptySorts();
      list := [];
    } else {
      var id :| id in items;
      var rest := items - {id};
      list := SortExists(rest);
      InsertSorts(list, rest, items[id]);
      assert items == rest[id := items[id]];
      list := Insert(list, items[id]);
    }
  }

  lemma EmptySorts()
    ensures Sorts([], map[])
  {
  }

  // ---------------------------------------------------------------- overflow

  function Members(keys: seq<string>): set<string> { set key | key in keys }

  ghost predicate Distinct(keys: seq<string>) {
    forall i, j :: 0 <= i < j < |keys| ==> keys[i] != keys[j]
  }

  /** `gone` are exactly as many entries as exceed the limit, none of them younger than an entry that stays. */
  ghost predicate IsOverflow(items: map<string, Item>, gone: seq<string>, limit: nat) {
    && |gone| == (if |items| > limit then |items| - limit else 0)
    && Distinct(gone) && Members(gone) <= items.Keys
    && (forall dropped, kept :: dropped in Members(gone) && kept in items && kept !in Members(gone) ==> !Older(items[kept], items[dropped]))
  }

  function Keys(list: seq<Item>): (keys: seq<string>)
    ensures |keys| == |list| && forall i :: 0 <= i < |keys| ==> keys[i] == list[i].key
  {
    seq(|list|, i requires 0 <= i < |list| => list[i].key)
  }

  /** `sorted(...)[:overflow]`. */
  method Overflow(items: map<string, Item>, limit: nat) returns (gone: seq<string>)
    requires Keyed(items)
    ensures IsOverflow(items, gone, limit)
  {
    hide Sorts, IsOverflow;
    var list := SortItems(items);
    SortedLength(list, items);
    gone := Keys(list[..if |list| > limit then |list| - limit else 0]);
    HeadIsOverflow(items, list, gone, limit);
  }

  lemma OverflowExists(items: map<string, Item>, limit: nat) returns (gone: seq<string>)
    requires Keyed(items)
    ensures IsOverflow(items, gone, limit)
  {
    hide Sorts, IsOverflow;
    var list := SortExists(items);
    SortedLength(list, items);
    gone := Keys(list[..if |list| > limit then |list| - limit else 0]);
    HeadIsOverflow(items, list, gone, limit);
  }

  lemma SortedLength(list: seq<Item>, items: map<string, Item>)
    requires Sorts(list, items)
    ensures |list| == |items|
  {
  }

  lemma HeadIsOverflow(items: map<string, Item>, list: seq<Item>, gone: seq<string>, limit: nat)
    requires Sorts(list, items) && |list| == |items|
    requires gone == Keys(list[..if |list| > limit then |list| - limit else 0])
    ensures IsOverflow(items, gone, limit)
  {
    hide Older, Members, Sorts;
    HeadIsDistinct(items, list, gone);
    forall dropped, kept | dropped in Members(gone) && kept in items && kept !in Members(gone) ensures !Older(items[kept], items[dropped]) {
      HeadIsOldest(items, list, gone, dropped, kept);
    }
  }

  lemma HeadIsDistinct(items: map<string, Item>, list: seq<Item>, gone: seq<string>)
    requires Sorts(list, items) && |gone| <= |list| && forall i :: 0 <= i < |gone| ==> gone[i] == list[i].key
    ensures Distinct(gone) && Members(gone) <= items.Keys
  {
    hide Older, Ordered;
  }

  lemma HeadIsOldest(items: map<string, Item>, list: seq<Item>, gone: seq<string>, dropped: string, kept: string)
    requires Sorts(list, items) && |gone| <= |list| && forall i :: 0 <= i < |gone| ==> gone[i] == list[i].key
    requires dropped in Members(gone) && kept in items && kept !in Members(gone)
    ensures dropped in items && !Older(items[kept], items[dropped])
  {
    hide Older;
    var i :| 0 <= i < |gone| && gone[i] == dropped;
    var j :| 0 <= j < |list| && list[j].key == kept;
    assert forall m :: 0 <= m < |gone| ==> gone[m] in Members(gone);
    assert i < j;
  }

  /** Dropping distinct present keys shrinks the set by their number. */
  lemma {:induction false} SizeAfter(keys: set<string>, gone: seq<string>)
    requires Distinct(gone) && Members(gone) <= keys
    ensures |keys - Members(gone)| == |keys| - |gone|
  {
    if gone == [] {
      assert keys - Members(gone) == keys;
    } else {
      var init, last := gone[..|gone| - 1], gone[|gone| - 1];
      SizeAfter(keys, init);
      MembersGrow(gone, |gone| - 1);
      assert gone[..|gone|] == gone;
      assert last !in Members(init) by { hide Members; LastIsNew(gone); }
      hide Distinct;
      assert keys - Members(init) == (keys - Members(gone)) + {last};
    }
  }

  lemma SubsetIsSmaller(a: set<string>, b: set<string>)
    ensures a <= b ==> |a| <= |b|
  {
    if a <= b { assert b == a + (b - a); }
  }

  lemma LastIsNew(keys: seq<string>)
    requires keys != [] && Distinct(keys)
    ensures keys[|keys| - 1] !in Members(keys[..|keys| - 1])
  {
  }

  lemma MembersGrow(keys: seq<string>, i: nat)
    requires i < |keys|
    ensures Members(keys[..i + 1]) == Members(keys[..i]) + {keys[i]}
  {
    assert keys[..i + 1] == keys[..i] + [keys[i]];
  }
}
