/** Functional specification of `RawUsageOptimizer.getOptimizedRawUsageStartDate`: one
    function per step of the computation, each with what it means stated in its contract.
    The imperative methods in module RawUsageOptimizer are proved to compute exactly these. */
module OptimizerSpec {
  import opened Wrappers
  import opened Periods
  import opened UsageCatalog

  /** One optional date per billing period other than NoBillingPeriod, indexed by ordinal
      (the `LocalDate[]` array, `null` entries being None). */
  type Slots = seq<Option<Date>>

  /** `InvoiceDateUtils.advanceByNPeriods` / `recedeByNPeriods(date, period, n)`: calendar
      arithmetic that is not part of this model and stays uninterpreted. */
  type DateShift = (Date, BillingPeriod, int) -> Date

  // ---------------------------------------------------------------- catalog periods

  /** The billing periods used by some usage of the catalog. */
  function KnownPeriods(catalog: Catalog): set<BillingPeriod>
  {
    set name | name in catalog :: catalog[name].billingPeriod
  }

  // ---------------------------------------------------------------- sorting

  predicate SortedByEndDate(s: seq<InvoiceItem>)
  {
    forall i, j :: 0 <= i < j < |s| ==> s[i].endDate <= s[j].endDate
  }

  /** Inserts `x` after every item whose end date is not later than its own. */
  function InsertByEndDate(s: seq<InvoiceItem>, x: InvoiceItem): (r: seq<InvoiceItem>)
    ensures multiset(r) == multiset(s) + multiset{x}
    ensures |r| == |s| + 1
  {
    if s == [] then [x]
    else if x.endDate < s[0].endDate then [x] + s
    else
      assert s == [s[0]] + s[1..];
      [s[0]] + InsertByEndDate(s[1..], x)
  }

  lemma SortedTail(s: seq<InvoiceItem>)
    requires s != [] && SortedByEndDate(s)
    ensures SortedByEndDate(s[1..])
  {
    forall i, j | 0 <= i < j < |s| - 1 ensures s[1..][i].endDate <= s[1..][j].endDate {
      assert s[1..][i] == s[i + 1] && s[1..][j] == s[j + 1];
    }
  }

  /** Inserting into a sorted sequence keeps it sorted, and the new head is `x` or the old
      head. */
  lemma {:induction false} InsertKeepsSorted(s: seq<InvoiceItem>, x: InvoiceItem)
    requires SortedByEndDate(s)
    ensures SortedByEndDate(InsertByEndDate(s, x))
    ensures InsertByEndDate(s, x)[0] == x || (s != [] && InsertByEndDate(s, x)[0] == s[0])
    decreases |s|
  {
    var r := InsertByEndDate(s, x);
    if s == [] {
      assert r == [x];
    } else if x.endDate < s[0].endDate {
      assert r == [x] + s;
      forall i, j | 0 <= i < j < |r| ensures r[i].endDate <= r[j].endDate {
        if i == 0 {
          assert r[j] == s[j - 1] && s[0].endDate <= s[j - 1].endDate;
        } else {
          assert r[i] == s[i - 1] && r[j] == s[j - 1];
        }
      }
    } else {
      var tail := InsertByEndDate(s[1..], x);
      assert r == [s[0]] + tail;
      SortedTail(s);
      InsertKeepsSorted(s[1..], x);
      assert s[0].endDate <= tail[0].endDate by {
        if tail[0] != x {
          assert s[1..] != [] && tail[0] == s[1..][0] == s[1];
        }
      }
      forall i, j | 0 <= i < j < |r| ensures r[i].endDate <= r[j].endDate {
        if i == 0 {
          assert r[j] == tail[j - 1] && tail[0].endDate <= tail[j - 1].endDate;
        } else {
          assert r[i] == tail[i - 1] && r[j] == tail[j - 1];
        }
      }
    }
  }

  /** The ordering of `USAGE_ITEM_ORDERING.sortedCopy`: a permutation of the items sorted
      by end date. It is stable: items with equal end dates keep their input order
      (OptimizerProperties.SortKeepsTieOrder). */
  function SortByEndDate(s: seq<InvoiceItem>): (r: seq<InvoiceItem>)
    ensures SortedByEndDate(r)
    ensures multiset(r) == multiset(s)
    ensures |r| == |s|
  {
    if s == [] then []
    else
      var last := s[|s| - 1];
      assert s == s[..|s| - 1] + [last];
      var r := InsertByEndDate(SortByEndDate(s[..|s| - 1]), last);
      InsertKeepsSorted(SortByEndDate(s[..|s| - 1]), last);
      assert |r| == |multiset(r)|;
      r
  }

  /** The items ending on day `e`, in their order in `s`. */
  function WithEndDate(s: seq<InvoiceItem>, e: Date): seq<InvoiceItem>
  {
    if s == [] then [] else EndingOn(s[0], e) + WithEndDate(s[1..], e)
  }

  /** `[x]` when `x` ends on day `e`, nothing otherwise. */
  function EndingOn(x: InvoiceItem, e: Date): seq<InvoiceItem>
  {
    if x.endDate == e then [x] else []
  }

  // ---------------------------------------------------------------- initial slots

  /** The slot array before the scan: empty for a period the catalog uses, the marker date
      `advance(targetDate, bp, n)` for one it does not. */
  function InitialSlots(known: set<BillingPeriod>, targetDate: Date, n: int, advance: DateShift): (slots: Slots)
    ensures |slots| == SlotCount
    ensures forall o :: 0 <= o < SlotCount ==> (slots[o].None? <==> FromOrdinal(o) in known)
    ensures forall o :: 0 <= o < SlotCount && slots[o].Some? ==> slots[o].value == advance(targetDate, FromOrdinal(o), n)
  {
    seq(SlotCount, o requires 0 <= o < SlotCount =>
      if FromOrdinal(o) in known then None else Some(advance(targetDate, FromOrdinal(o), n)))
  }

  // ---------------------------------------------------------------- backward scan

  /** Some slot is still empty (`containsNullEntries`). */
  predicate HasEmpty(s: Slots)
  {
    exists o :: 0 <= o < |s| && s[o].None?
  }

  /** The backward scan over `sorted[..i]`, from `sorted[i-1]` down to `sorted[0]`: each
      item's usage is looked up, an empty slot of its period takes the item's end date,
      and the scan stops as soon as no slot is empty. A name missing from the catalog and
      a period without a slot are the two exceptions the lookup can raise. Filled slots
      are never overwritten. */
  function ScanFrom(slots: Slots, sorted: seq<InvoiceItem>, i: nat, catalog: Catalog): (r: Result<Slots, Failure>)
    requires i <= |sorted|
    ensures r.Ok? ==> |r.value| == |slots|
    ensures r.Ok? ==> forall o :: 0 <= o < |slots| && slots[o].Some? ==> r.value[o] == slots[o]
    decreases i
  {
    if i == 0 then Ok(slots)
    else
      var item := sorted[i - 1];
      if item.usageName !in catalog then Err(MissingUsageDefinition(item.usageName))
      else
        var o := Ordinal(catalog[item.usageName].billingPeriod);
        if o >= |slots| then Err(SlotIndexOutOfBounds(o))
        else if slots[o].Some? then ScanFrom(slots, sorted, i - 1, catalog)
        else
          var filled := slots[o := Some(item.endDate)];
          if !HasEmpty(filled) then Ok(filled) else ScanFrom(filled, sorted, i - 1, catalog)
  }

  /** The same scan without the early exit: every item is visited. */
  function FullScan(slots: Slots, sorted: seq<InvoiceItem>, i: nat, catalog: Catalog): (r: Result<Slots, Failure>)
    requires i <= |sorted|
    ensures r.Ok? ==> |r.value| == |slots|
    ensures r.Ok? ==> forall o :: 0 <= o < |slots| && slots[o].Some? ==> r.value[o] == slots[o]
    decreases i
  {
    if i == 0 then Ok(slots)
    else
      var item := sorted[i - 1];
      if item.usageName !in catalog then Err(MissingUsageDefinition(item.usageName))
      else
        var o := Ordinal(catalog[item.usageName].billingPeriod);
        if o >= |slots| then Err(SlotIndexOutOfBounds(o))
        else if slots[o].Some? then FullScan(slots, sorted, i - 1, catalog)
        else FullScan(slots[o := Some(item.endDate)], sorted, i - 1, catalog)
  }

  // ---------------------------------------------------------------- reference: latest end dates

  /** The latest end date among the items billed under a catalog usage of period `bp`;
      None when there is no such item. */
  function LatestEnd(items: seq<InvoiceItem>, catalog: Catalog, bp: BillingPeriod): (r: Option<Date>)
    ensures r.None? <==> forall k :: 0 <= k < |items| ==> !RefersTo(items[k], catalog, bp)
    ensures r.Some? ==> exists k :: 0 <= k < |items| && RefersTo(items[k], catalog, bp) && items[k].endDate == r.value
    ensures r.Some? ==> forall k :: 0 <= k < |items| && RefersTo(items[k], catalog, bp) ==> items[k].endDate <= r.value
  {
    if items == [] then None
    else
      var rest := LatestEnd(items[1..], catalog, bp);
      assert forall k :: 1 <= k < |items| ==> items[k] == items[1..][k - 1];
      if !RefersTo(items[0], catalog, bp) then rest
      else if rest.Some? && rest.value >= items[0].endDate then rest
      else Some(items[0].endDate)
  }

  /** Reference result of the scan: slots already holding a marker keep it, every other
      slot holds the latest end date of its period (None if no item has that period). */
  function LatestPerPeriod(init: Slots, items: seq<InvoiceItem>, catalog: Catalog): (s: Slots)
    requires |init| == SlotCount
  {
    seq(SlotCount, o requires 0 <= o < SlotCount =>
      if init[o].Some? then init[o] else LatestEnd(items, catalog, FromOrdinal(o)))
  }

  // ---------------------------------------------------------------- earliest candidate

  /** A slot's candidate start date: its date receded by `n` periods of its own period. */
  function Candidate(slot: Option<Date>, bp: BillingPeriod, n: int, recede: DateShift): Option<Date>
  {
    if slot.Some? then Some(recede(slot.value, bp, n)) else None
  }

  /** `targetStartDate` after the extraction loop has seen the first `k` slots: replaced
      while still null, and afterwards only by a strictly earlier candidate. It is the
      earliest candidate of the non-empty slots, and None when all of them are empty. */
  function EarliestUpTo(slots: Slots, k: nat, n: int, recede: DateShift): (t: Option<Date>)
    requires k <= |slots| && k <= SlotCount
    ensures t.None? <==> forall j :: 0 <= j < k ==> slots[j].None?
    ensures t.Some? ==> exists j :: 0 <= j < k && slots[j].Some? && t.value == recede(slots[j].value, FromOrdinal(j), n)
    ensures t.Some? ==> forall j :: 0 <= j < k && slots[j].Some? ==> t.value <= recede(slots[j].value, FromOrdinal(j), n)
  {
    if k == 0 then None
    else
      var acc := EarliestUpTo(slots, k - 1, n, recede);
      var c := Candidate(slots[k - 1], FromOrdinal(k - 1), n, recede);
      if acc.None? || (c.Some? && c.value < acc.value) then c else acc
  }

  function Earliest(slots: Slots, n: int, recede: DateShift): Option<Date>
    requires |slots| == SlotCount
  {
    EarliestUpTo(slots, SlotCount, n, recede)
  }

  // ---------------------------------------------------------------- floor and whole computation

  /** The later of `firstEventStartDate` and the earliest candidate, when there is one. */
  function ClampToFirstEvent(firstEventStartDate: Date, targetStartDate: Option<Date>): (r: Date)
    ensures r >= firstEventStartDate
    ensures targetStartDate.Some? ==> r >= targetStartDate.value
    ensures r == firstEventStartDate || targetStartDate == Some(r)
  {
    if targetStartDate.Some? && targetStartDate.value > firstEventStartDate then targetStartDate.value
    else firstEventStartDate
  }

  /** `getOptimizedRawUsageStartDate`, step by step. */
  function OptimizedStartDate(firstEventStartDate: Date, targetDate: Date, items: seq<InvoiceItem>,
                              catalog: Catalog, n: int, advance: DateShift, recede: DateShift): (r: Result<Date, Failure>)
    ensures items == [] ==> r == Ok(firstEventStartDate)
    ensures r.Ok? ==> r.value >= firstEventStartDate
  {
    if items == [] then Ok(firstEventStartDate)
    else
      var init := InitialSlots(KnownPeriods(catalog), targetDate, n, advance);
      var sorted := SortByEndDate(items);
      match ScanFrom(init, sorted, |sorted|, catalog)
      case Err(e) => Err(e)
      case Ok(slots) => Ok(ClampToFirstEvent(firstEventStartDate, Earliest(slots, n, recede)))
  }
}
