/** What the optimizer's result means: the backward scan leaves in each catalog period's
    slot the latest end date of that period's items, the early exit never changes a
    successful scan, failures come only from items the catalog cannot place, and the
    result is the floored minimum of the receded slots. */
module OptimizerProperties {
  import opened Wrappers
  import opened Periods
  import opened UsageCatalog
  import opened OptimizerSpec

  // ---------------------------------------------------------------- stability of the sort

  lemma {:induction false} WithEndDateAppend(a: seq<InvoiceItem>, b: seq<InvoiceItem>, e: Date)
    ensures WithEndDate(a + b, e) == WithEndDate(a, e) + WithEndDate(b, e)
    decreases |a|
  {
    if a == [] {
      assert a + b == b;
    } else {
      var ab := a + b;
      assert ab[0] == a[0] && ab[1..] == a[1..] + b;
      WithEndDateAppend(a[1..], b, e);
      assert WithEndDate(ab, e) == EndingOn(a[0], e) + (WithEndDate(a[1..], e) + WithEndDate(b, e));
      AppendAssociative(EndingOn(a[0], e), WithEndDate(a[1..], e), WithEndDate(b, e));
    }
  }

  lemma {:induction false} WithEndDateNone(s: seq<InvoiceItem>, e: Date)
    requires forall k :: 0 <= k < |s| ==> s[k].endDate != e
    ensures WithEndDate(s, e) == []
    decreases |s|
  {
    if s != [] {
      WithEndDateNone(s[1..], e);
    }
  }

  /** `x` placed before every item of a sorted `s`: no item of `s` shares its end date. */
  lemma InsertBeforeHead(s: seq<InvoiceItem>, x: InvoiceItem, e: Date)
    requires SortedByEndDate(s) && s != [] && x.endDate < s[0].endDate
    ensures WithEndDate(InsertByEndDate(s, x), e) == WithEndDate(s, e) + EndingOn(x, e)
  {
    var r := InsertByEndDate(s, x);
    assert r == [x] + s && r[0] == x && r[1..] == s;
    assert WithEndDate(r, e) == EndingOn(x, e) + WithEndDate(s, e);
    if x.endDate == e {
      forall k | 0 <= k < |s| ensures s[k].endDate != e {
        assert s[0].endDate <= s[k].endDate;
      }
      WithEndDateNone(s, e);
    } else {
      assert EndingOn(x, e) == [];
    }
  }

  /** Inserting into a sorted sequence puts `x` after every item with its end date. */
  lemma {:induction false} InsertKeepsTieOrder(s: seq<InvoiceItem>, x: InvoiceItem, e: Date)
    requires SortedByEndDate(s)
    ensures WithEndDate(InsertByEndDate(s, x), e) == WithEndDate(s, e) + EndingOn(x, e)
    decreases |s|
  {
    if s == [] {
      var r := InsertByEndDate(s, x);
      assert r == [x] && r[1..] == [];
    } else if x.endDate < s[0].endDate {
      InsertBeforeHead(s, x, e);
    } else {
      SortedTail(s);
      InsertKeepsTieOrder(s[1..], x, e);
      InsertAfterHead(s, x, e);
    }
  }

  /** `x` inserted behind the head of `s`: the head's tie class comes first. */
  lemma InsertAfterHead(s: seq<InvoiceItem>, x: InvoiceItem, e: Date)
    requires s != [] && s[0].endDate <= x.endDate
    requires WithEndDate(InsertByEndDate(s[1..], x), e) == WithEndDate(s[1..], e) + EndingOn(x, e)
    ensures WithEndDate(InsertByEndDate(s, x), e) == WithEndDate(s, e) + EndingOn(x, e)
  {
    var r, t := InsertByEndDate(s, x), InsertByEndDate(s[1..], x);
    assert r == [s[0]] + t && r[0] == s[0] && r[1..] == t;
    var head, rest, tie := EndingOn(s[0], e), WithEndDate(s[1..], e), EndingOn(x, e);
    assert WithEndDate(r, e) == head + WithEndDate(t, e);
    assert WithEndDate(s, e) == head + rest;
    AppendAssociative(head, rest, tie);
  }

  lemma AppendAssociative(a: seq<InvoiceItem>, b: seq<InvoiceItem>, c: seq<InvoiceItem>)
    ensures a + (b + c) == (a + b) + c
  {
  }

  lemma WithEndDateSingleton(x: InvoiceItem, e: Date)
    ensures WithEndDate([x], e) == EndingOn(x, e)
  {
    assert [x][1..] == [];
    assert EndingOn(x, e) + [] == EndingOn(x, e);
  }

  /** The sort is stable: for every end date, the items ending on it appear in the sorted
      copy in their input order. */
  lemma {:induction false} SortKeepsTieOrder(s: seq<InvoiceItem>, e: Date)
    ensures WithEndDate(SortByEndDate(s), e) == WithEndDate(s, e)
    decreases |s|
  {
    if s != [] {
      var init, last := s[..|s| - 1], s[|s| - 1];
      assert s == init + [last];
      SortKeepsTieOrder(init, e);
      InsertKeepsTieOrder(SortByEndDate(init), last, e);
      WithEndDateAppend(init, [last], e);
      WithEndDateSingleton(last, e);
      assert SortByEndDate(s) == InsertByEndDate(SortByEndDate(init), last);
    }
  }

  // ---------------------------------------------------------------- latest end dates

  /** Items of `a` all occurring in `b`: the latest end date over `b` is at least the one
      over `a`. */
  lemma LatestEndOfSubset(a: seq<InvoiceItem>, b: seq<InvoiceItem>, catalog: Catalog, bp: BillingPeriod)
    requires forall k :: 0 <= k < |a| ==> a[k] in b
    requires LatestEnd(a, catalog, bp).Some?
    ensures LatestEnd(b, catalog, bp).Some?
    ensures LatestEnd(a, catalog, bp).value <= LatestEnd(b, catalog, bp).value
  {
    var ka :| 0 <= ka < |a| && RefersTo(a[ka], catalog, bp) && a[ka].endDate == LatestEnd(a, catalog, bp).value;
    var kb :| 0 <= kb < |b| && b[kb] == a[ka];
  }

  /** The latest end date of a period does not depend on the order of the items. */
  lemma LatestEndPermutation(a: seq<InvoiceItem>, b: seq<InvoiceItem>, catalog: Catalog, bp: BillingPeriod)
    requires multiset(a) == multiset(b)
    ensures LatestEnd(a, catalog, bp) == LatestEnd(b, catalog, bp)
  {
    forall k | 0 <= k < |a| ensures a[k] in b {
      assert a[k] in multiset(a);
    }
    forall k | 0 <= k < |b| ensures b[k] in a {
      assert b[k] in multiset(b);
    }
    if LatestEnd(a, catalog, bp).Some? {
      LatestEndOfSubset(a, b, catalog, bp);
      LatestEndOfSubset(b, a, catalog, bp);
    } else if LatestEnd(b, catalog, bp).Some? {
      LatestEndOfSubset(b, a, catalog, bp);
    }
  }

  /** On sorted items, once a suffix has an item of the period, the items before it cannot
      carry a later end date. */
  lemma {:induction false} LatestEndOfSortedSuffix(sorted: seq<InvoiceItem>, i: nat, catalog: Catalog, bp: BillingPeriod)
    requires SortedByEndDate(sorted) && i <= |sorted|
    requires LatestEnd(sorted[i..], catalog, bp).Some?
    ensures LatestEnd(sorted, catalog, bp) == LatestEnd(sorted[i..], catalog, bp)
    decreases i
  {
    if i == 0 {
      assert sorted[0..] == sorted;
    } else {
      LatestEndStep(sorted, i, catalog, bp);
      LatestEndOfSortedSuffix(sorted, i - 1, catalog, bp);
    }
  }

  /** Stepping the suffix back by one item changes only the item's own period, and on
      sorted items only when the later suffix had no item of that period. */
  lemma LatestEndStep(sorted: seq<InvoiceItem>, i: nat, catalog: Catalog, bp: BillingPeriod)
    requires SortedByEndDate(sorted) && 0 < i <= |sorted|
    ensures !RefersTo(sorted[i - 1], catalog, bp) ==>
              LatestEnd(sorted[i - 1..], catalog, bp) == LatestEnd(sorted[i..], catalog, bp)
    ensures RefersTo(sorted[i - 1], catalog, bp) ==>
              LatestEnd(sorted[i - 1..], catalog, bp)
              == if LatestEnd(sorted[i..], catalog, bp).Some? then LatestEnd(sorted[i..], catalog, bp)
                 else Some(sorted[i - 1].endDate)
  {
    assert sorted[i - 1..][1..] == sorted[i..];
    var rest := LatestEnd(sorted[i..], catalog, bp);
    if rest.Some? {
      var m :| 0 <= m < |sorted[i..]| && RefersTo(sorted[i..][m], catalog, bp) && sorted[i..][m].endDate == rest.value;
      assert sorted[i..][m] == sorted[i + m];
    }
  }

  // ---------------------------------------------------------------- the backward scan

  /** Every usage of the catalog with a real period has an empty initial slot. */
  ghost predicate CatalogSlotsEmpty(init: Slots, catalog: Catalog)
  {
    |init| == SlotCount &&
    forall name :: name in catalog && catalog[name].billingPeriod != NoBillingPeriod ==>
      init[Ordinal(catalog[name].billingPeriod)].None?
  }

  /** The state of the scan before `sorted[i-1]`: marker slots as initialised, every other
      slot the latest end date of its period among the items already visited. */
  ghost predicate ScanState(init: Slots, s: Slots, sorted: seq<InvoiceItem>, i: nat, catalog: Catalog)
    requires |init| == SlotCount && i <= |sorted|
  {
    s == LatestPerPeriod(init, sorted[i..], catalog)
  }

  /** Visiting `sorted[i-1]` keeps the scan state: a filled slot of its period stays, an
      empty one takes its end date, and no other period changes. */
  lemma ScanStateStep(init: Slots, s: Slots, sorted: seq<InvoiceItem>, i: nat, catalog: Catalog)
    requires SortedByEndDate(sorted) && 0 < i <= |sorted|
    requires CatalogSlotsEmpty(init, catalog)
    requires ScanState(init, s, sorted, i, catalog)
    requires sorted[i - 1].usageName in catalog
    requires Ordinal(catalog[sorted[i - 1].usageName].billingPeriod) < SlotCount
    ensures var o := Ordinal(catalog[sorted[i - 1].usageName].billingPeriod);
            ScanState(init, if s[o].Some? then s else s[o := Some(sorted[i - 1].endDate)], sorted, i - 1, catalog)
  {
    var item := sorted[i - 1];
    var bp := catalog[item.usageName].billingPeriod;
    var o := Ordinal(bp);
    SlotOfOrdinal(bp);
    assert init[o].None?;
    var next := if s[o].Some? then s else s[o := Some(item.endDate)];
    var want := LatestPerPeriod(init, sorted[i - 1..], catalog);
    forall o' | 0 <= o' < SlotCount ensures next[o'] == want[o'] {
      LatestEndStep(sorted, i, catalog, FromOrdinal(o'));
      if o' == o {
        OrdinalRoundTrip(bp);
      } else {
        assert Ordinal(FromOrdinal(o')) == o';
      }
    }
    assert next == want;
  }

  /** Once no slot is empty, later items cannot change any period's latest end date. */
  lemma FullStateIsLatest(init: Slots, s: Slots, sorted: seq<InvoiceItem>, i: nat, catalog: Catalog)
    requires SortedByEndDate(sorted) && i <= |sorted|
    requires |init| == SlotCount
    requires ScanState(init, s, sorted, i, catalog)
    requires !HasEmpty(s)
    ensures s == LatestPerPeriod(init, sorted, catalog)
  {
    var want := LatestPerPeriod(init, sorted, catalog);
    forall o | 0 <= o < SlotCount ensures s[o] == want[o] {
      assert s[o].Some?;
      if init[o].None? {
        LatestEndOfSortedSuffix(sorted, i, catalog, FromOrdinal(o));
      }
    }
    assert s == want;
  }

  lemma {:induction false} ScanReachesLatest(init: Slots, s: Slots, sorted: seq<InvoiceItem>, i: nat, catalog: Catalog)
    requires SortedByEndDate(sorted) && i <= |sorted|
    requires CatalogSlotsEmpty(init, catalog)
    requires ScanState(init, s, sorted, i, catalog)
    requires ScanFrom(s, sorted, i, catalog).Ok?
    ensures ScanFrom(s, sorted, i, catalog).value == LatestPerPeriod(init, sorted, catalog)
    decreases i
  {
    if i == 0 {
      assert sorted[0..] == sorted;
    } else {
      var item := sorted[i - 1];
      assert item.usageName in catalog;
      var o := Ordinal(catalog[item.usageName].billingPeriod);
      assert o < |s|;
      ScanStateStep(init, s, sorted, i, catalog);
      if s[o].Some? {
        assert ScanFrom(s, sorted, i, catalog) == ScanFrom(s, sorted, i - 1, catalog);
        ScanReachesLatest(init, s, sorted, i - 1, catalog);
      } else {
        var filled := s[o := Some(item.endDate)];
        if !HasEmpty(filled) {
          assert ScanFrom(s, sorted, i, catalog) == Ok(filled);
          FullStateIsLatest(init, filled, sorted, i - 1, catalog);
        } else {
          assert ScanFrom(s, sorted, i, catalog) == ScanFrom(filled, sorted, i - 1, catalog);
          ScanReachesLatest(init, filled, sorted, i - 1, catalog);
        }
      }
    }
  }

  /** The slot a failure is about: the item's usage name, or the index of its period. */
  function FailureOf(item: InvoiceItem, catalog: Catalog): Failure
  {
    if item.usageName !in catalog then MissingUsageDefinition(item.usageName)
    else SlotIndexOutOfBounds(Ordinal(catalog[item.usageName].billingPeriod))
  }

  /** A scan fails only on an item it reaches whose usage the catalog cannot place, and it
      reports that item's failure. */
  lemma {:induction false} ScanFailureNamesItem(s: Slots, sorted: seq<InvoiceItem>, i: nat, catalog: Catalog)
    requires |s| == SlotCount && i <= |sorted|
    requires ScanFrom(s, sorted, i, catalog).Err?
    ensures exists k :: 0 <= k < i && !Consistent(sorted[k], catalog)
                        && ScanFrom(s, sorted, i, catalog).error == FailureOf(sorted[k], catalog)
    decreases i
  {
    var item := sorted[i - 1];
    if item.usageName in catalog {
      var bp := catalog[item.usageName].billingPeriod;
      var o := Ordinal(bp);
      SlotOfOrdinal(bp);
      if o >= |s| {
        assert !Consistent(sorted[i - 1], catalog);
      } else if s[o].Some? {
        ScanFailureNamesItem(s, sorted, i - 1, catalog);
      } else {
        ScanFailureNamesItem(s[o := Some(item.endDate)], sorted, i - 1, catalog);
      }
    }
  }

  // ---------------------------------------------------------------- early exit

  /** With no empty slot left, visiting further items assigns nothing. */
  lemma {:induction false} FullScanIdleWhenFull(s: Slots, sorted: seq<InvoiceItem>, i: nat, catalog: Catalog)
    requires i <= |sorted| && !HasEmpty(s)
    requires FullScan(s, sorted, i, catalog).Ok?
    ensures FullScan(s, sorted, i, catalog) == Ok(s)
    decreases i
  {
    if i > 0 {
      var o := Ordinal(catalog[sorted[i - 1].usageName].billingPeriod);
      assert s[o].Some?;
      FullScanIdleWhenFull(s, sorted, i - 1, catalog);
    }
  }

  /** The early `break` never changes the slots of a scan that would succeed when visiting
      every item. */
  lemma {:induction false} EarlyExitAgreesWithFullScan(s: Slots, sorted: seq<InvoiceItem>, i: nat, catalog: Catalog)
    requires i <= |sorted|
    requires FullScan(s, sorted, i, catalog).Ok?
    ensures ScanFrom(s, sorted, i, catalog) == FullScan(s, sorted, i, catalog)
    decreases i
  {
    if i > 0 {
      var item := sorted[i - 1];
      var o := Ordinal(catalog[item.usageName].billingPeriod);
      if s[o].Some? {
        EarlyExitAgreesWithFullScan(s, sorted, i - 1, catalog);
      } else {
        var filled := s[o := Some(item.endDate)];
        if !HasEmpty(filled) {
          FullScanIdleWhenFull(filled, sorted, i - 1, catalog);
        } else {
          EarlyExitAgreesWithFullScan(filled, sorted, i - 1, catalog);
        }
      }
    }
  }

  /** A failure of the scan with early exit is a failure of the full scan too: the two
      differ only where the `break` skips an item the catalog cannot place. */
  lemma {:induction false} EarlyExitKeepsFailures(s: Slots, sorted: seq<InvoiceItem>, i: nat, catalog: Catalog)
    requires i <= |sorted|
    requires ScanFrom(s, sorted, i, catalog).Err?
    ensures FullScan(s, sorted, i, catalog) == ScanFrom(s, sorted, i, catalog)
    decreases i
  {
    var item := sorted[i - 1];
    if item.usageName in catalog {
      var o := Ordinal(catalog[item.usageName].billingPeriod);
      if o < |s| {
        if s[o].Some? {
          EarlyExitKeepsFailures(s, sorted, i - 1, catalog);
        } else {
          EarlyExitKeepsFailures(s[o := Some(item.endDate)], sorted, i - 1, catalog);
        }
      }
    }
  }

  // ---------------------------------------------------------------- the whole computation

  /** The initial slots leave every catalog period empty. */
  lemma InitialSlotsLeaveCatalogEmpty(catalog: Catalog, targetDate: Date, n: int, advance: DateShift)
    ensures CatalogSlotsEmpty(InitialSlots(KnownPeriods(catalog), targetDate, n, advance), catalog)
  {
    var init := InitialSlots(KnownPeriods(catalog), targetDate, n, advance);
    forall name | name in catalog && catalog[name].billingPeriod != NoBillingPeriod
      ensures init[Ordinal(catalog[name].billingPeriod)].None?
    {
      var bp := catalog[name].billingPeriod;
      SlotOfOrdinal(bp);
      OrdinalRoundTrip(bp);
      assert bp in KnownPeriods(catalog);
    }
  }

  /** The slots the source computes, stated without the scan: marker dates for periods the
      catalog does not use, the latest end date of the items of each period it uses. */
  function ReferenceSlots(catalog: Catalog, targetDate: Date, items: seq<InvoiceItem>, n: int, advance: DateShift): Slots
  {
    LatestPerPeriod(InitialSlots(KnownPeriods(catalog), targetDate, n, advance), items, catalog)
  }

  /** A successful run returns the later of `firstEventStartDate` and the earliest receded
      reference slot; for no items it returns `firstEventStartDate`. */
  lemma OptimizedStartDateMeaning(firstEventStartDate: Date, targetDate: Date, items: seq<InvoiceItem>,
                                  catalog: Catalog, n: int, advance: DateShift, recede: DateShift)
    requires OptimizedStartDate(firstEventStartDate, targetDate, items, catalog, n, advance, recede).Ok?
    ensures OptimizedStartDate(firstEventStartDate, targetDate, items, catalog, n, advance, recede).value
            == if items == [] then firstEventStartDate
               else ClampToFirstEvent(firstEventStartDate, Earliest(ReferenceSlots(catalog, targetDate, items, n, advance), n, recede))
  {
    if items != [] {
      var init := InitialSlots(KnownPeriods(catalog), targetDate, n, advance);
      var sorted := SortByEndDate(items);
      InitialSlotsLeaveCatalogEmpty(catalog, targetDate, n, advance);
      assert sorted[|sorted|..] == [];
      var start := LatestPerPeriod(init, sorted[|sorted|..], catalog);
      forall o | 0 <= o < SlotCount ensures init[o] == start[o] {
      }
      assert ScanState(init, init, sorted, |sorted|, catalog);
      ScanReachesLatest(init, init, sorted, |sorted|, catalog);
      forall o | 0 <= o < SlotCount
        ensures LatestPerPeriod(init, sorted, catalog)[o] == LatestPerPeriod(init, items, catalog)[o]
      {
        LatestEndPermutation(sorted, items, catalog, FromOrdinal(o));
      }
    }
  }

  /** When every item's usage is in the catalog with a real period the computation
      succeeds; otherwise a failure names an item the catalog cannot place. */
  lemma OptimizedStartDateFailure(firstEventStartDate: Date, targetDate: Date, items: seq<InvoiceItem>,
                                  catalog: Catalog, n: int, advance: DateShift, recede: DateShift)
    ensures (forall k :: 0 <= k < |items| ==> Consistent(items[k], catalog)) ==>
              OptimizedStartDate(firstEventStartDate, targetDate, items, catalog, n, advance, recede).Ok?
    ensures OptimizedStartDate(firstEventStartDate, targetDate, items, catalog, n, advance, recede).Err? ==>
              exists k :: 0 <= k < |items| && !Consistent(items[k], catalog) &&
                OptimizedStartDate(firstEventStartDate, targetDate, items, catalog, n, advance, recede).error == FailureOf(items[k], catalog)
  {
    if items != [] {
      var init := InitialSlots(KnownPeriods(catalog), targetDate, n, advance);
      var sorted := SortByEndDate(items);
      if ScanFrom(init, sorted, |sorted|, catalog).Err? {
        ScanFailureNamesItem(init, sorted, |sorted|, catalog);
        var k :| 0 <= k < |sorted| && !Consistent(sorted[k], catalog)
                 && ScanFrom(init, sorted, |sorted|, catalog).error == FailureOf(sorted[k], catalog);
        assert sorted[k] in multiset(items);
        var k' :| 0 <= k' < |items| && items[k'] == sorted[k];
      }
    }
  }
}
