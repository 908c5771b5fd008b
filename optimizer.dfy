/** The optimizer as the source runs it: a slot array filled through a running index, a
    backward scan that assigns empty slots and stops once none is left, and an indexed
    loop that folds the earliest receded date. Every method is proved to compute the
    matching function of OptimizerSpec. */
module RawUsageOptimizer {
  import opened Wrappers
  import opened Periods
  import opened UsageCatalog
  import opened OptimizerSpec

  /** The set of billing periods the catalog's usages use. */
  method CollectKnownPeriods(knownUsage: Catalog) returns (known: set<BillingPeriod>)
    ensures known == KnownPeriods(knownUsage)
    ensures forall bp :: bp in known <==> exists name :: name in knownUsage && knownUsage[name].billingPeriod == bp
  {
    known := {};
    var remaining := knownUsage.Keys;
    while remaining != {}
      invariant remaining <= knownUsage.Keys
      invariant known == set name | name in knownUsage.Keys - remaining :: knownUsage[name].billingPeriod
      decreases remaining
    {
      var name :| name in remaining;
      known := known + {knownUsage[name].billingPeriod};
      remaining := remaining - {name};
    }
    assert knownUsage.Keys - remaining == knownUsage.Keys;
  }

  /** One slot per billing period other than NoBillingPeriod, written at a running index as
      the periods are enumerated in declaration order: empty for a period in `known`, the
      marker `advance(targetDate, bp, n)` otherwise. */
  method InitSlots(known: set<BillingPeriod>, targetDate: Date, n: int, advance: DateShift)
    returns (slots: array<Option<Date>>)
    ensures fresh(slots)
    ensures slots[..] == InitialSlots(known, targetDate, n, advance)
  {
    slots := new Option<Date>[SlotCount](_ => None);
    ghost var spec := InitialSlots(known, targetDate, n, advance);
    var idx := 0;
    var o := 0;
    while o < PeriodCount
      invariant 0 <= o <= PeriodCount
      invariant idx == if o <= SlotCount then o else SlotCount
      invariant forall j :: 0 <= j < idx ==> slots[j] == spec[j]
    {
      var bp := FromOrdinal(o);
      if bp != NoBillingPeriod {
        var marker := advance(targetDate, bp, n);
        slots[idx] := if bp in known then None else Some(marker);
        idx := idx + 1;
      }
      o := o + 1;
    }
  }

  /** `containsNullEntries`: whether some entry is empty. */
  method ContainsNullEntries(entries: array<Option<Date>>) returns (result: bool)
    ensures result <==> HasEmpty(entries[..])
  {
    result := false;
    var i := 0;
    while i < entries.Length
      invariant 0 <= i <= entries.Length
      invariant forall j :: 0 <= j < i ==> entries[j].Some?
    {
      if entries[i].None? {
        result := true;
        assert entries[..][i].None?;
        break;
      }
      i := i + 1;
    }
  }

  /** The backward scan over the sorted items. The array ends as ScanFrom says, or the scan
      stops at the failure ScanFrom reports. Items that are not usage items are logged by the
      source and otherwise treated like the others. */
  method ScanBackward(sorted: seq<InvoiceItem>, knownUsage: Catalog, slots: array<Option<Date>>)
    returns (failure: Option<Failure>)
    modifies slots
    ensures ScanFrom(old(slots[..]), sorted, |sorted|, knownUsage)
            == if failure.Some? then Err(failure.value) else Ok(slots[..])
  {
    var i := |sorted|;
    while i > 0
      invariant 0 <= i <= |sorted|
      invariant ScanFrom(slots[..], sorted, i, knownUsage) == ScanFrom(old(slots[..]), sorted, |sorted|, knownUsage)
    {
      i := i - 1;
      var item := sorted[i];
      if item.usageName !in knownUsage {
        return Some(MissingUsageDefinition(item.usageName));
      }
      var usage := knownUsage[item.usageName];
      var o := Ordinal(usage.billingPeriod);
      if o >= slots.Length {
        return Some(SlotIndexOutOfBounds(o));
      }
      if slots[o].None? {
        slots[o] := Some(item.endDate);
        var hasNull := ContainsNullEntries(slots);
        if !hasNull {
          break;
        }
      }
    }
    failure := None;
  }

  /** The extraction loop: walks the periods in declaration order with a running index and
      keeps the earliest receded date of the non-empty slots. */
  method ExtractEarliest(slots: array<Option<Date>>, n: int, recede: DateShift)
    returns (targetStartDate: Option<Date>)
    requires slots.Length == SlotCount
    ensures targetStartDate == Earliest(slots[..], n, recede)
  {
    targetStartDate := None;
    var idx := 0;
    var o := 0;
    while o < PeriodCount
      invariant 0 <= o <= PeriodCount
      invariant idx == if o <= SlotCount then o else SlotCount
      invariant targetStartDate == EarliestUpTo(slots[..], idx, n, recede)
    {
      var bp := FromOrdinal(o);
      if bp != NoBillingPeriod {
        SlotOfOrdinal(bp);
        assert idx == o < SlotCount;
        var tmp := slots[idx];
        assert tmp == slots[..][idx];
        var targetBillingPeriodDate := if tmp.Some? then Some(recede(tmp.value, bp, n)) else None;
        if targetStartDate.None? || (targetBillingPeriodDate.Some? && targetBillingPeriodDate.value < targetStartDate.value) {
          targetStartDate := targetBillingPeriodDate;
        }
        idx := idx + 1;
      }
      o := o + 1;
    }
  }

  /** `getOptimizedRawUsageStartDate`, with `n` the configured look-back count. */
  method GetOptimizedRawUsageStartDate(firstEventStartDate: Date, targetDate: Date,
                                       existingUsageItems: seq<InvoiceItem>, knownUsage: Catalog,
                                       n: int, advance: DateShift, recede: DateShift)
    returns (r: Result<Date, Failure>)
    ensures r == OptimizedStartDate(firstEventStartDate, targetDate, existingUsageItems, knownUsage, n, advance, recede)
    ensures existingUsageItems == [] ==> r == Ok(firstEventStartDate)
    ensures r.Ok? ==> r.value >= firstEventStartDate
  {
    if |existingUsageItems| == 0 {
      return Ok(firstEventStartDate);
    }
    var known := CollectKnownPeriods(knownUsage);
    var sorted := SortByEndDate(existingUsageItems);
    var slots := InitSlots(known, targetDate, n, advance);
    var failure := ScanBackward(sorted, knownUsage, slots);
    if failure.Some? {
      return Err(failure.value);
    }
    var targetStartDate := ExtractEarliest(slots, n, recede);
    r := Ok(ClampToFirstEvent(firstEventStartDate, targetStartDate));
  }
}
