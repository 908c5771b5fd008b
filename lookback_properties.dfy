/** Properties of the result that depend on the calendar arithmetic, each stated under the
    fact about `advanceByNPeriods` / `recedeByNPeriods` it needs, plus the fact that the
    kind of an item plays no part in the result. */
module LookBackProperties {
  import opened Wrappers
  import opened Periods
  import opened UsageCatalog
  import opened OptimizerSpec
  import opened OptimizerProperties

  /** The slots of the catalog's own periods: the latest end date of each period the catalog
      uses, and nothing for the periods it does not use (no marker). */
  function CatalogSlots(catalog: Catalog, items: seq<InvoiceItem>): Slots
  {
    seq(SlotCount, o requires 0 <= o < SlotCount =>
      if FromOrdinal(o) in KnownPeriods(catalog) then LatestEnd(items, catalog, FromOrdinal(o)) else None)
  }

  /** With consistent items ending no later than the target, there is a catalog slot whose
      candidate is at most the target. */
  lemma SomeCatalogCandidateBeforeTarget(targetDate: Date, items: seq<InvoiceItem>, catalog: Catalog,
                                         n: int, recede: DateShift)
    requires items != []
    requires forall k :: 0 <= k < |items| ==> Consistent(items[k], catalog) && items[k].endDate <= targetDate
    requires forall d, bp :: recede(d, bp, n) <= d
    ensures Earliest(CatalogSlots(catalog, items), n, recede).Some?
    ensures Earliest(CatalogSlots(catalog, items), n, recede).value <= targetDate
  {
    var bp := catalog[items[0].usageName].billingPeriod;
    var o := Ordinal(bp);
    SlotOfOrdinal(bp);
    OrdinalRoundTrip(bp);
    assert bp in KnownPeriods(catalog);
    var slots := CatalogSlots(catalog, items);
    assert RefersTo(items[0], catalog, bp);
    assert slots[o] == LatestEnd(items, catalog, bp);
    var d := slots[o].value;
    var m :| 0 <= m < |items| && RefersTo(items[m], catalog, bp) && items[m].endDate == d;
    assert recede(d, FromOrdinal(o), n) <= d;
  }

  /** Every catalog slot is a reference slot. */
  lemma CatalogSlotsAreReferenceSlots(catalog: Catalog, targetDate: Date, items: seq<InvoiceItem>, n: int, advance: DateShift)
    ensures forall o :: 0 <= o < SlotCount && FromOrdinal(o) in KnownPeriods(catalog) ==>
              ReferenceSlots(catalog, targetDate, items, n, advance)[o] == CatalogSlots(catalog, items)[o]
    ensures forall o :: 0 <= o < SlotCount && FromOrdinal(o) !in KnownPeriods(catalog) ==>
              ReferenceSlots(catalog, targetDate, items, n, advance)[o] == Some(advance(targetDate, FromOrdinal(o), n))
  {
  }

  /** When every item's usage is in the catalog and ends by the target date, and receding
      never moves a date later, the result lies between `firstEventStartDate` and the
      target date. */
  lemma StartDateWithinWindow(firstEventStartDate: Date, targetDate: Date, items: seq<InvoiceItem>,
                              catalog: Catalog, n: int, advance: DateShift, recede: DateShift)
    requires firstEventStartDate <= targetDate
    requires forall k :: 0 <= k < |items| ==> Consistent(items[k], catalog) && items[k].endDate <= targetDate
    requires forall d, bp :: recede(d, bp, n) <= d
    ensures OptimizedStartDate(firstEventStartDate, targetDate, items, catalog, n, advance, recede).Ok?
    ensures firstEventStartDate <= OptimizedStartDate(firstEventStartDate, targetDate, items, catalog, n, advance, recede).value <= targetDate
  {
    OptimizedStartDateFailure(firstEventStartDate, targetDate, items, catalog, n, advance, recede);
    OptimizedStartDateMeaning(firstEventStartDate, targetDate, items, catalog, n, advance, recede);
    if items != [] {
      ReferenceCandidateBeforeTarget(catalog, targetDate, items, n, advance, recede);
    }
  }

  /** With consistent items ending no later than the target, some reference slot has a
      candidate not later than the target. */
  lemma ReferenceCandidateBeforeTarget(catalog: Catalog, targetDate: Date, items: seq<InvoiceItem>,
                                       n: int, advance: DateShift, recede: DateShift)
    requires items != []
    requires forall k :: 0 <= k < |items| ==> Consistent(items[k], catalog) && items[k].endDate <= targetDate
    requires forall d, bp :: recede(d, bp, n) <= d
    ensures Earliest(ReferenceSlots(catalog, targetDate, items, n, advance), n, recede).Some?
    ensures Earliest(ReferenceSlots(catalog, targetDate, items, n, advance), n, recede).value <= targetDate
  {
    SomeCatalogCandidateBeforeTarget(targetDate, items, catalog, n, recede);
    var catalogSlots := CatalogSlots(catalog, items);
    var ref := ReferenceSlots(catalog, targetDate, items, n, advance);
    CatalogSlotsAreReferenceSlots(catalog, targetDate, items, n, advance);
    var c := Earliest(catalogSlots, n, recede).value;
    var j :| 0 <= j < SlotCount && catalogSlots[j].Some? && c == recede(catalogSlots[j].value, FromOrdinal(j), n);
    assert ref[j] == catalogSlots[j];
    assert Earliest(ref, n, recede).value <= c;
  }

  /** The marker slots of periods the catalog does not use never decide the result, as
      long as the items are consistent and end by the target date, receding never moves
      a date later, and receding a marker by the look-back count lands no earlier than
      the target date. Then the result only depends on the catalog's own periods. */
  lemma MarkersNeverChosen(firstEventStartDate: Date, targetDate: Date, items: seq<InvoiceItem>,
                           catalog: Catalog, n: int, advance: DateShift, recede: DateShift)
    requires forall k :: 0 <= k < |items| ==> Consistent(items[k], catalog) && items[k].endDate <= targetDate
    requires forall d, bp :: recede(d, bp, n) <= d
    requires forall bp :: recede(advance(targetDate, bp, n), bp, n) >= targetDate
    ensures OptimizedStartDate(firstEventStartDate, targetDate, items, catalog, n, advance, recede)
            == Ok(ClampToFirstEvent(firstEventStartDate, Earliest(CatalogSlots(catalog, items), n, recede)))
  {
    if items == [] {
      var slots := CatalogSlots(catalog, items);
      forall o | 0 <= o < SlotCount ensures slots[o].None? {
      }
    } else {
      OptimizedStartDateFailure(firstEventStartDate, targetDate, items, catalog, n, advance, recede);
      OptimizedStartDateMeaning(firstEventStartDate, targetDate, items, catalog, n, advance, recede);
      SomeCatalogCandidateBeforeTarget(targetDate, items, catalog, n, recede);
      MarkerSlotsAreLate(catalog, targetDate, items, n, advance, recede);
      EarliestIgnoresLateMarkers(ReferenceSlots(catalog, targetDate, items, n, advance), CatalogSlots(catalog, items),
                                 targetDate, n, recede);
    }
  }

  /** A reference slot either is the catalog slot or is a marker whose candidate is not
      earlier than the target. */
  lemma MarkerSlotsAreLate(catalog: Catalog, targetDate: Date, items: seq<InvoiceItem>,
                           n: int, advance: DateShift, recede: DateShift)
    requires forall bp :: recede(advance(targetDate, bp, n), bp, n) >= targetDate
    ensures var ref, kept := ReferenceSlots(catalog, targetDate, items, n, advance), CatalogSlots(catalog, items);
            forall o :: 0 <= o < SlotCount ==>
              ref[o] == kept[o] || (kept[o].None? && ref[o].Some? && recede(ref[o].value, FromOrdinal(o), n) >= targetDate)
  {
    CatalogSlotsAreReferenceSlots(catalog, targetDate, items, n, advance);
  }

  /** Dropping slots whose candidates are not earlier than `targetDate` leaves the earliest
      candidate unchanged, when some remaining candidate is not later than `targetDate`. */
  lemma EarliestIgnoresLateMarkers(ref: Slots, kept: Slots, targetDate: Date, n: int, recede: DateShift)
    requires |ref| == SlotCount && |kept| == SlotCount
    requires forall o :: 0 <= o < SlotCount ==>
               ref[o] == kept[o] || (kept[o].None? && ref[o].Some? && recede(ref[o].value, FromOrdinal(o), n) >= targetDate)
    requires Earliest(kept, n, recede).Some? && Earliest(kept, n, recede).value <= targetDate
    ensures Earliest(ref, n, recede) == Earliest(kept, n, recede)
  {
    var c := Earliest(kept, n, recede).value;
    var j :| 0 <= j < SlotCount && kept[j].Some? && c == recede(kept[j].value, FromOrdinal(j), n);
    assert ref[j] == kept[j];
    var e := Earliest(ref, n, recede).value;
    assert e <= c;
    var i :| 0 <= i < SlotCount && ref[i].Some? && e == recede(ref[i].value, FromOrdinal(i), n);
    if ref[i] == kept[i] {
      assert c <= e;
    }
  }

  /** Looking back further never moves the start date later, provided receding by more
      periods never lands later and the markers are not chosen for either count. */
  lemma StartDateMonotoneInLookBack(firstEventStartDate: Date, targetDate: Date, items: seq<InvoiceItem>,
                                    catalog: Catalog, n: int, n': int, advance: DateShift, recede: DateShift)
    requires 0 <= n <= n'
    requires forall k :: 0 <= k < |items| ==> Consistent(items[k], catalog) && items[k].endDate <= targetDate
    requires forall d, bp :: recede(d, bp, n) <= d
    requires forall d, bp :: recede(d, bp, n') <= recede(d, bp, n)
    requires forall bp :: recede(advance(targetDate, bp, n), bp, n) >= targetDate
    requires forall bp :: recede(advance(targetDate, bp, n'), bp, n') >= targetDate
    ensures OptimizedStartDate(firstEventStartDate, targetDate, items, catalog, n, advance, recede).Ok?
    ensures OptimizedStartDate(firstEventStartDate, targetDate, items, catalog, n', advance, recede).Ok?
    ensures OptimizedStartDate(firstEventStartDate, targetDate, items, catalog, n', advance, recede).value
            <= OptimizedStartDate(firstEventStartDate, targetDate, items, catalog, n, advance, recede).value
  {
    if items != [] {
      MarkersNeverChosen(firstEventStartDate, targetDate, items, catalog, n, advance, recede);
      assert forall d, bp :: recede(d, bp, n') <= d;
      MarkersNeverChosen(firstEventStartDate, targetDate, items, catalog, n', advance, recede);
      var slots := CatalogSlots(catalog, items);
      SomeCatalogCandidateBeforeTarget(targetDate, items, catalog, n, recede);
      EarliestMonotone(slots, n, n', recede);
      var e, e' := Earliest(slots, n, recede), Earliest(slots, n', recede);
      assert ClampToFirstEvent(firstEventStartDate, e') <= ClampToFirstEvent(firstEventStartDate, e);
    }
  }

  /** Receding every slot by a count that never lands later gives an earliest candidate
      that is not later. */
  lemma EarliestMonotone(slots: Slots, n: int, n': int, recede: DateShift)
    requires |slots| == SlotCount
    requires forall d, bp :: recede(d, bp, n') <= recede(d, bp, n)
    requires Earliest(slots, n, recede).Some?
    ensures Earliest(slots, n', recede).Some?
    ensures Earliest(slots, n', recede).value <= Earliest(slots, n, recede).value
  {
    var e := Earliest(slots, n, recede).value;
    var j :| 0 <= j < SlotCount && slots[j].Some? && e == recede(slots[j].value, FromOrdinal(j), n);
    var d, bp := slots[j].value, FromOrdinal(j);
    assert recede(d, bp, n') <= recede(d, bp, n);
    assert Earliest(slots, n', recede).value <= recede(d, bp, n');
  }

  // ---------------------------------------------------------------- the item kind is ignored

  /** Two item lists that agree on everything but the kind of each item. */
  ghost predicate SameButKind(a: seq<InvoiceItem>, b: seq<InvoiceItem>)
  {
    |a| == |b| &&
    forall k :: 0 <= k < |a| ==> a[k].endDate == b[k].endDate && a[k].usageName == b[k].usageName
  }

  lemma {:induction false} InsertIgnoresKind(s: seq<InvoiceItem>, s': seq<InvoiceItem>, x: InvoiceItem, x': InvoiceItem)
    requires SameButKind(s, s')
    requires x.endDate == x'.endDate && x.usageName == x'.usageName
    ensures SameButKind(InsertByEndDate(s, x), InsertByEndDate(s', x'))
    decreases |s|
  {
    if s == [] {
    } else if x.endDate < s[0].endDate {
      var r, r' := InsertByEndDate(s, x), InsertByEndDate(s', x');
      assert r == [x] + s && r' == [x'] + s';
      forall k | 0 <= k < |r| ensures r[k].endDate == r'[k].endDate && r[k].usageName == r'[k].usageName {
        if k > 0 {
          assert r[k] == s[k - 1] && r'[k] == s'[k - 1];
        }
      }
    } else {
      assert SameButKind(s[1..], s'[1..]) by {
        forall k | 0 <= k < |s| - 1 ensures s[1..][k] == s[k + 1] && s'[1..][k] == s'[k + 1] {
        }
      }
      InsertIgnoresKind(s[1..], s'[1..], x, x');
      var t, t' := InsertByEndDate(s[1..], x), InsertByEndDate(s'[1..], x');
      var r, r' := InsertByEndDate(s, x), InsertByEndDate(s', x');
      assert r == [s[0]] + t && r' == [s'[0]] + t';
      forall k | 0 <= k < |r| ensures r[k].endDate == r'[k].endDate && r[k].usageName == r'[k].usageName {
        if k > 0 {
          assert r[k] == t[k - 1] && r'[k] == t'[k - 1];
        }
      }
    }
  }

  lemma {:induction false} SortIgnoresKind(a: seq<InvoiceItem>, b: seq<InvoiceItem>)
    requires SameButKind(a, b)
    ensures SameButKind(SortByEndDate(a), SortByEndDate(b))
    decreases |a|
  {
    if a != [] {
      SortIgnoresKind(a[..|a| - 1], b[..|b| - 1]);
      InsertIgnoresKind(SortByEndDate(a[..|a| - 1]), SortByEndDate(b[..|b| - 1]), a[|a| - 1], b[|b| - 1]);
    }
  }

  lemma {:induction false} ScanIgnoresKind(s: Slots, a: seq<InvoiceItem>, b: seq<InvoiceItem>, i: nat, catalog: Catalog)
    requires SameButKind(a, b) && i <= |a|
    ensures ScanFrom(s, a, i, catalog) == ScanFrom(s, b, i, catalog)
    decreases i
  {
    if i > 0 {
      var o := if a[i - 1].usageName in catalog then Ordinal(catalog[a[i - 1].usageName].billingPeriod) else 0;
      if o < |s| && s[o].None? {
        ScanIgnoresKind(s[o := Some(a[i - 1].endDate)], a, b, i - 1, catalog);
      } else {
        ScanIgnoresKind(s, a, b, i - 1, catalog);
      }
    }
  }

  /** Items that are not usage items are processed like usage items: the result does not
      depend on the kind of any item. */
  lemma ItemKindIgnored(firstEventStartDate: Date, targetDate: Date, items: seq<InvoiceItem>, items': seq<InvoiceItem>,
                        catalog: Catalog, n: int, advance: DateShift, recede: DateShift)
    requires |items| == |items'|
    requires forall k :: 0 <= k < |items| ==> items[k].endDate == items'[k].endDate && items[k].usageName == items'[k].usageName
    ensures OptimizedStartDate(firstEventStartDate, targetDate, items, catalog, n, advance, recede)
            == OptimizedStartDate(firstEventStartDate, targetDate, items', catalog, n, advance, recede)
  {
    SortIgnoresKind(items, items');
    var init := InitialSlots(KnownPeriods(catalog), targetDate, n, advance);
    ScanIgnoresKind(init, SortByEndDate(items), SortByEndDate(items'), |items|, catalog);
  }

  // ---------------------------------------------------------------- when a marker is chosen

  /** Day numbers of 2021 (1 = 1 January). Calendar arithmetic that clamps to the end of
      the month moves 31 January one month on to 28 February (day 59) and 28 February one
      month back to 28 January; daily periods move by whole days. The other periods get
      exact inverses, which is all this case needs of them. */
  function ClampingAdvance(): DateShift
  {
    (d: Date, bp: BillingPeriod, k: int) =>
      if bp == Monthly && d == 31 && k == 1 then 59 else if bp == Daily then d + k else d + 1000 * k
  }

  function ClampingRecede(): DateShift
  {
    (d: Date, bp: BillingPeriod, k: int) =>
      if bp == Monthly && d == 59 && k == 1 then 28 else if bp == Daily then d - k else d - 1000 * k
  }

  /** A catalog that bills one usage daily, and one item of it ending on 30 January. */
  function DailyCatalog(): Catalog
  {
    map["api-calls" := Usage("api-calls", Daily)]
  }

  function DailyItems(): seq<InvoiceItem>
  {
    [InvoiceItem(UsageItem, 30, "api-calls")]
  }

  lemma DailyCatalogPeriods()
    ensures KnownPeriods(DailyCatalog()) == {Daily}
    ensures Consistent(DailyItems()[0], DailyCatalog())
    ensures LatestEnd(DailyItems(), DailyCatalog(), Daily) == Some(30)
  {
    var catalog := DailyCatalog();
    assert catalog["api-calls"].billingPeriod == Daily;
    forall bp | bp in KnownPeriods(catalog) ensures bp == Daily {
      var name :| name in catalog && catalog[name].billingPeriod == bp;
      assert name == "api-calls";
    }
  }

  /** With the markers, the earliest candidate is the monthly marker's, 28 January. */
  lemma MarkerExampleWithMarkers()
    ensures Earliest(ReferenceSlots(DailyCatalog(), 31, DailyItems(), 1, ClampingAdvance()), 1, ClampingRecede()) == Some(28)
  {
    DailyCatalogPeriods();
    var advance, recede := ClampingAdvance(), ClampingRecede();
    CatalogSlotsAreReferenceSlots(DailyCatalog(), 31, DailyItems(), 1, advance);
    var ref := ReferenceSlots(DailyCatalog(), 31, DailyItems(), 1, advance);
    assert ref[7] == Some(59);
    var e := Earliest(ref, 1, recede).value;
    assert e <= 28;
    var j :| 0 <= j < SlotCount && ref[j].Some? && e == recede(ref[j].value, FromOrdinal(j), 1);
  }

  /** Without the markers, the daily slot alone gives 29 January. */
  lemma MarkerExampleWithoutMarkers()
    ensures Earliest(CatalogSlots(DailyCatalog(), DailyItems()), 1, ClampingRecede()) == Some(29)
  {
    DailyCatalogPeriods();
    var slots := CatalogSlots(DailyCatalog(), DailyItems());
    assert slots[0] == Some(30);
    forall o | 0 < o < SlotCount ensures slots[o].None? {
      assert FromOrdinal(o) != Daily;
    }
    var c := Earliest(slots, 1, ClampingRecede()).value;
    var i :| 0 <= i < SlotCount && slots[i].Some? && c == ClampingRecede()(slots[i].value, FromOrdinal(i), 1);
    assert i == 0;
  }

  /** A marker can be the minimum. With a catalog that only bills daily, one item ending on
      30 January, target date 31 January and a look-back of one period, the daily slot
      gives 29 January, but the monthly marker (advanced to 28 February, then receded to
      28 January) is earlier and decides the result. */
  lemma MarkerCanBeChosen()
    ensures OptimizedStartDate(1, 31, DailyItems(), DailyCatalog(), 1, ClampingAdvance(), ClampingRecede()) == Ok(28)
    ensures ClampToFirstEvent(1, Earliest(CatalogSlots(DailyCatalog(), DailyItems()), 1, ClampingRecede())) == 29
  {
    DailyCatalogPeriods();
    OptimizedStartDateFailure(1, 31, DailyItems(), DailyCatalog(), 1, ClampingAdvance(), ClampingRecede());
    OptimizedStartDateMeaning(1, 31, DailyItems(), DailyCatalog(), 1, ClampingAdvance(), ClampingRecede());
    MarkerExampleWithMarkers();
    MarkerExampleWithoutMarkers();
  }

  /** Two items of one day, the first naming a usage the catalog lacks. */
  function TiedItems(): seq<InvoiceItem>
  {
    [InvoiceItem(UsageItem, 5, "unknown"), InvoiceItem(UsageItem, 5, "api-calls")]
  }

  lemma {:induction false} WithEndDateAll(s: seq<InvoiceItem>, e: Date)
    requires forall k :: 0 <= k < |s| ==> s[k].endDate == e
    ensures WithEndDate(s, e) == s
    decreases |s|
  {
    if s != [] {
      WithEndDateAll(s[1..], e);
      assert s == [s[0]] + s[1..];
    }
  }

  /** Items that all end on one day come out of the sort in their input order. */
  lemma SameDaySortKeepsOrder(s: seq<InvoiceItem>, e: Date)
    requires forall k :: 0 <= k < |s| ==> s[k].endDate == e
    ensures SortByEndDate(s) == s
  {
    var r := SortByEndDate(s);
    forall k | 0 <= k < |r| ensures r[k].endDate == e {
      assert r[k] in multiset(s);
    }
    SortKeepsTieOrder(s, e);
    WithEndDateAll(s, e);
    WithEndDateAll(r, e);
  }

  /** For the daily catalog, the daily slot is the only empty one. */
  lemma DailyInitialSlots(targetDate: Date, n: int, advance: DateShift, endDate: Date)
    ensures InitialSlots(KnownPeriods(DailyCatalog()), targetDate, n, advance)[0].None?
    ensures !HasEmpty(InitialSlots(KnownPeriods(DailyCatalog()), targetDate, n, advance)[0 := Some(endDate)])
  {
    DailyCatalogPeriods();
    var filled := InitialSlots(KnownPeriods(DailyCatalog()), targetDate, n, advance)[0 := Some(endDate)];
    forall o | 0 < o < SlotCount ensures filled[o].Some? {
      assert FromOrdinal(o) != Daily;
    }
  }

  /** Whether the run throws depends on the input order of items ending on the same day.
      The stable sort keeps the two tied items in input order, and the backward scan
      meets the last one first. In the order given, it fills the only empty slot from
      the daily usage and stops before the unknown name. In the reverse order, it meets
      the unknown name first. */
  lemma TieOrderDecidesFailure(advance: DateShift, recede: DateShift)
    ensures OptimizedStartDate(0, 10, TiedItems(), DailyCatalog(), 1, advance, recede).Ok?
    ensures OptimizedStartDate(0, 10, [TiedItems()[1], TiedItems()[0]], DailyCatalog(), 1, advance, recede)
            == Err(MissingUsageDefinition("unknown"))
  {
    var a, b := TiedItems()[0], TiedItems()[1];
    var init := InitialSlots(KnownPeriods(DailyCatalog()), 10, 1, advance);
    SameDaySortKeepsOrder([a, b], 5);
    SameDaySortKeepsOrder([b, a], 5);
    TiedScanInInputOrder(init, advance);
    TiedScanInReverseOrder(init);
  }

  /** Scanning [unknown, daily] backward: the daily item fills the only empty slot. */
  lemma TiedScanInInputOrder(init: Slots, advance: DateShift)
    requires init == InitialSlots(KnownPeriods(DailyCatalog()), 10, 1, advance)
    ensures ScanFrom(init, TiedItems(), 2, DailyCatalog()).Ok?
  {
    var catalog, b := DailyCatalog(), TiedItems()[1];
    assert b.usageName in catalog && catalog[b.usageName].billingPeriod == Daily;
    DailyInitialSlots(10, 1, advance, 5);
    assert Ordinal(Daily) == 0;
  }

  /** Scanning [daily, unknown] backward: the unknown name comes first. */
  lemma TiedScanInReverseOrder(init: Slots)
    requires |init| == SlotCount
    ensures ScanFrom(init, [TiedItems()[1], TiedItems()[0]], 2, DailyCatalog()) == Err(MissingUsageDefinition("unknown"))
  {
    assert "unknown" !in DailyCatalog();
  }
}
