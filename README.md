# Raw-usage look-back optimizer (Kill Bill invoice module)

This project models `RawUsageOptimizer` in Kill Bill's invoice module, and proves
properties of the model. A usage-based invoice run must re-read raw usage data. It does
not need to re-read the whole history of the account: it only needs the data from a
start date onwards. The optimizer computes that start date from:

- the first usage event date,
- the target date of the invoice run,
- the usage invoice items already generated,
- the catalog's usages (each tagged with a billing period),
- the configured look-back count `N`.

The computation has four steps:

1. It builds one slot per billing period other than `NO_BILLING_PERIOD`. A period that
   no catalog usage uses gets a marker date: the target date advanced by `N` periods.
   A period that the catalog uses starts empty.
2. It sorts the items by end date and walks them backwards. Each item's usage is looked
   up in the catalog. When the slot of the usage's period is still empty, it takes the
   item's end date. The walk stops as soon as no slot is empty.
3. It recedes every non-empty slot by `N` periods of its own period and takes the
   earliest of these dates.
4. It returns that date, but never a date earlier than the first event date.

The coordinator `getInArrearUsage` does three things:

- it skips the optimizer when the configured look-back is negative;
- it reads raw usage and tracking rows for [start date, target date];
- it collects the tracking identifiers into a set.

Layout, one module per file:

- `periods.dfy` (`Periods`): the billing-period enumeration, its ordinals and the slot
  layout.
- `usage.dfy` (`UsageCatalog`): dates, usages, invoice items and the two failures.
- `wrappers.dfy` (`Wrappers`): `Option` (the source's null) and `Result` (its
  exceptions).
- `optimizer_spec.dfy` (`OptimizerSpec`): one function per step, with what the step
  means in its contract.
- `optimizer.dfy` (`RawUsageOptimizer`): the source's loops over a slot array. Each
  method is proved to compute the matching function.
- `optimizer_properties.dfy` (`OptimizerProperties`): what the slots and the result are,
  stated without the scan.
- `lookback_properties.dfy` (`LookBackProperties`): properties that depend on the
  calendar arithmetic, stated under the facts they need; that the item kind plays no
  part.
- `coordinator.dfy` (`InArrearUsage`): `getInArrearUsage` and its result record. The
  record `RawUsageOptimizerResult` (lines 164-187) is a datatype with the three fields
  and no behaviour, so it has no row below. `TrackingIdOf` is the projection of a
  tracking row to a `TrackingRecordId` at line 82.

## Modelling choices

- Dates are day numbers (`int`). `InvoiceDateUtils.advanceByNPeriods` and
  `recedeByNPeriods` are not part of this model. They are function-typed parameters
  (`DateShift`), so every property holds for any calendar arithmetic. Where a property
  needs a fact about that arithmetic (for example `recede(d, bp, n) <= d`), the lemma
  states the fact as a `requires`.
- The source of the `BillingPeriod` enumeration is not among the modelled files.
  `Periods.BillingPeriod` declares its constants as the Kill Bill catalog API has them,
  in declaration order, with `NO_BILLING_PERIOD` last; the proofs rely only on
  `NO_BILLING_PERIOD` being last. The
  source sizes the slot array as "number of periods minus one" and fills it with a
  running index, but it indexes the array by `ordinal()` when it scans. These two agree
  only because `NO_BILLING_PERIOD` is last. `Periods.SlotOfOrdinal` and
  `Periods.NoBillingPeriodIsLast` state this explicitly. `Ordinal` and `FromOrdinal`
  are the only view of the enumeration that the proofs use.
- The slot array stays an `array<Option<Date>>`. It is filled, scanned and folded by
  `while` loops shaped like the source's loops, including the running index and the
  `break`.
- Two things in the scan throw, and both are modelled as explicit failures, not as
  preconditions:
  - An item's usage name missing from the catalog. `knownUsage.get` returns null, which
    is then dereferenced; the model gives `MissingUsageDefinition`.
  - A catalog usage with `NO_BILLING_PERIOD`. Its ordinal is one past the end of the
    array; the model gives `SlotIndexOutOfBounds`.

  Either failure happens only if the backward scan reaches the item before the early
  `break`. `OptimizerProperties.EarlyExitKeepsFailures` and
  `OptimizerProperties.EarlyExitAgreesWithFullScan` state exactly how the `break`
  changes this.
- Items that are not `UsageInvoiceItem`s are only logged by the code, then processed
  like any other item. The model does the same; `LookBackProperties.ItemKindIgnored`
  proves that the kind plays no part.
- The library sort (`Ordering.sortedCopy`) is `OptimizerSpec.SortByEndDate`, an
  insertion sort. Its contract says the result is sorted by end date and is a
  permutation of the input. `OptimizerProperties.SortKeepsTieOrder` proves it stable:
  items with equal end dates keep their input order.
- The value of a successful run depends only on the multiset of items
  (`OptimizerProperties.LatestEndPermutation`, used by
  `OptimizerProperties.OptimizedStartDateMeaning`). Whether the run succeeds or throws
  can depend on the input order of items with equal end dates. The stable sort keeps
  that order, and the `break` can stop the scan before it reaches an item the catalog
  cannot place. `LookBackProperties.TieOrderDecidesFailure` exhibits two items ending
  on the same day, one with a usage name missing from the catalog: in one order the run
  succeeds, in the other it fails with `MissingUsageDefinition`.
- The configured look-back is one parameter `n`. The source reads it from the
  configuration at three places: once at line 73, then once per period other than
  `NO_BILLING_PERIOD` at line 110 (inside the loop of lines 108-113) and again once per
  such period at line 141 (inside the loop of lines 138-147). The model assumes all
  these reads agree.
- The marker dates are receded like every other slot (line 141). So a marker's
  candidate is `recede(advance(target, bp, n), bp, n)`, not a date after the target.
  `LookBackProperties.MarkersNeverChosen` proves that markers cannot decide the result
  when that candidate is not earlier than the target date, every item's usage is in the
  catalog with a real period, every item ends by the target date and receding never
  moves a date later.
  `LookBackProperties.MarkerCanBeChosen` exhibits calendar arithmetic that clamps to
  the end of the month, and under it the monthly marker is the minimum:
  - the only usage is billed daily, `N = 1`, and the target date is 31 January 2021;
  - the one item ends on 30 January, so its slot gives 29 January;
  - the monthly marker is advanced to 28 February and receded to 28 January, which is
    earlier and wins.

  In that case the marker, not any item, decides the start date. How an earlier start
  date affects the invoiced amounts is decided outside `RawUsageOptimizer` and is not
  part of this model.

## Model

| member | source | states |
|---|---|---|
| `Periods.SlotOfOrdinal` | invoice/src/main/java/org/killbill/billing/invoice/usage/RawUsageOptimizer.java:106-113 | a period has a slot (its ordinal is below the array length) exactly when it is not NO_BILLING_PERIOD, so the running index of the fill loop and `ordinal()` in the scan name the same slot |
| `Periods.NoBillingPeriodIsLast` | invoice/src/main/java/org/killbill/billing/invoice/usage/RawUsageOptimizer.java:106 | NO_BILLING_PERIOD is the last constant and no slot index denotes it (the layout assumption the array relies on) |
| `OptimizerSpec.SortByEndDate` | invoice/src/main/java/org/killbill/billing/invoice/usage/RawUsageOptimizer.java:99-100 | the sorted copy is ordered by end date and is a permutation of the items |
| `OptimizerProperties.SortKeepsTieOrder` | invoice/src/main/java/org/killbill/billing/invoice/usage/RawUsageOptimizer.java:99-100 | the sort is stable: for every end date, the items ending on it appear in the sorted copy in their input order |
| `OptimizerSpec.InitialSlots` | invoice/src/main/java/org/killbill/billing/invoice/usage/RawUsageOptimizer.java:102-113 | one slot per period other than NO_BILLING_PERIOD; a slot is empty exactly when the catalog uses its period, otherwise it holds `advance(targetDate, bp, n)` |
| `OptimizerSpec.ScanFrom` | invoice/src/main/java/org/killbill/billing/invoice/usage/RawUsageOptimizer.java:115-133 | the backward scan with early exit keeps the slot count and never overwrites a filled slot (markers included) |
| `OptimizerSpec.FullScan` | invoice/src/main/java/org/killbill/billing/invoice/usage/RawUsageOptimizer.java:115-128 | the same scan visiting every item also never overwrites a filled slot |
| `OptimizerSpec.LatestEnd` | invoice/src/main/java/org/killbill/billing/invoice/usage/RawUsageOptimizer.java:106 | a reference definition that no source line computes: what a slot of the array named at line 106 means, and the reference for the scan at lines 115-133. It is the latest end date among the items of a period: None exactly when no item has that period, otherwise the end date of one of them and not earlier than any of them |
| `OptimizerSpec.EarliestUpTo` | invoice/src/main/java/org/killbill/billing/invoice/usage/RawUsageOptimizer.java:135-147 | the folded `targetStartDate` is None exactly when every slot seen is empty, and otherwise is the receded date of some non-empty slot and no later than the receded date of any non-empty slot |
| `OptimizerSpec.ClampToFirstEvent` | invoice/src/main/java/org/killbill/billing/invoice/usage/RawUsageOptimizer.java:149-150 | the result is never earlier than `firstEventStartDate` or than the earliest candidate, and it is one of the two |
| `RawUsageOptimizer.CollectKnownPeriods` | invoice/src/main/java/org/killbill/billing/invoice/usage/RawUsageOptimizer.java:93-97 | a period is collected exactly when some catalog usage has it |
| `RawUsageOptimizer.InitSlots` | invoice/src/main/java/org/killbill/billing/invoice/usage/RawUsageOptimizer.java:106-113 | the fresh array filled through the running index equals the initial slots |
| `RawUsageOptimizer.ContainsNullEntries` | invoice/src/main/java/org/killbill/billing/invoice/usage/RawUsageOptimizer.java:153-162 | returns true exactly when some entry of the array is empty |
| `RawUsageOptimizer.ScanBackward` | invoice/src/main/java/org/killbill/billing/invoice/usage/RawUsageOptimizer.java:115-133 | the in-place scan over the array leaves it as the scan function says, or stops with the failure that function reports |
| `RawUsageOptimizer.ExtractEarliest` | invoice/src/main/java/org/killbill/billing/invoice/usage/RawUsageOptimizer.java:135-147 | the indexed loop returns the earliest receded date of the non-empty slots, None when all are empty |
| `OptimizerSpec.OptimizedStartDate` | invoice/src/main/java/org/killbill/billing/invoice/usage/RawUsageOptimizer.java:88-151 | the whole computation step by step (early return, slots, sort, scan, extraction, floor); its own contract says only that it is `firstEventStartDate` for no items and that a success is never earlier than `firstEventStartDate`; what it means is given by `OptimizerProperties.OptimizedStartDateMeaning` and `OptimizerProperties.OptimizedStartDateFailure` |
| `RawUsageOptimizer.GetOptimizedRawUsageStartDate` | invoice/src/main/java/org/killbill/billing/invoice/usage/RawUsageOptimizer.java:88-151 | computes the step-by-step result; exactly `firstEventStartDate` when there are no items; a success is never earlier than `firstEventStartDate` |
| `OptimizerProperties.LatestEndPermutation` | invoice/src/main/java/org/killbill/billing/invoice/usage/RawUsageOptimizer.java:99-100 | the latest end date of a period is the same for any permutation of the items |
| `OptimizerProperties.ScanReachesLatest` | invoice/src/main/java/org/killbill/billing/invoice/usage/RawUsageOptimizer.java:115-133 | on sorted items a successful scan leaves each catalog period's slot at the latest end date of that period's items (empty if none) and every marker slot unchanged |
| `OptimizerProperties.ScanFailureNamesItem` | invoice/src/main/java/org/killbill/billing/invoice/usage/RawUsageOptimizer.java:125-127 | a failed scan reached an item whose usage is missing from the catalog or has NO_BILLING_PERIOD, and reports that item's failure |
| `OptimizerProperties.FullScanIdleWhenFull` | invoice/src/main/java/org/killbill/billing/invoice/usage/RawUsageOptimizer.java:127-131 | once no slot is empty, visiting more items assigns nothing |
| `OptimizerProperties.EarlyExitAgreesWithFullScan` | invoice/src/main/java/org/killbill/billing/invoice/usage/RawUsageOptimizer.java:127-131 | whenever scanning every item succeeds, the scan with the early `break` gives the same slots |
| `OptimizerProperties.EarlyExitKeepsFailures` | invoice/src/main/java/org/killbill/billing/invoice/usage/RawUsageOptimizer.java:127-131 | a failure of the scan with early exit is the same failure of the full scan, so the two differ only where the `break` skips an item the catalog cannot place |
| `OptimizerProperties.InitialSlotsLeaveCatalogEmpty` | invoice/src/main/java/org/killbill/billing/invoice/usage/RawUsageOptimizer.java:94-113 | every catalog usage with a real period has an empty initial slot |
| `OptimizerProperties.OptimizedStartDateMeaning` | invoice/src/main/java/org/killbill/billing/invoice/usage/RawUsageOptimizer.java:88-151 | a successful result is `firstEventStartDate` for no items, and otherwise the later of `firstEventStartDate` and the earliest receded slot, where a slot holds its marker or the latest end date of its period over the unsorted items |
| `OptimizerProperties.OptimizedStartDateFailure` | invoice/src/main/java/org/killbill/billing/invoice/usage/RawUsageOptimizer.java:125-127 | when every item's usage is in the catalog with a real period the computation succeeds; a failure names an item for which that does not hold |
| `LookBackProperties.StartDateWithinWindow` | invoice/src/main/java/org/killbill/billing/invoice/usage/RawUsageOptimizer.java:136-150 | with `firstEventStartDate <= targetDate`, consistent items ending by the target date and receding that never moves a date later, the result lies in [`firstEventStartDate`, `targetDate`] |
| `LookBackProperties.MarkersNeverChosen` | invoice/src/main/java/org/killbill/billing/invoice/usage/RawUsageOptimizer.java:102-113 | when every item's usage is in the catalog with a real period, every item ends by the target date, receding never moves a date later and a receded marker is not earlier than the target date, the result equals the one computed from the catalog's own periods alone |
| `LookBackProperties.MarkerCanBeChosen` | invoice/src/main/java/org/killbill/billing/invoice/usage/RawUsageOptimizer.java:138-144 | with month-end clamping, a daily-only catalog yields 28 January from the monthly marker, where its own slot alone gives 29 January |
| `LookBackProperties.TieOrderDecidesFailure` | invoice/src/main/java/org/killbill/billing/invoice/usage/RawUsageOptimizer.java:115-131 | for the same two items ending on one day, one of them unknown to the catalog, the run succeeds in one input order and fails with `MissingUsageDefinition` in the other |
| `LookBackProperties.StartDateMonotoneInLookBack` | invoice/src/main/java/org/killbill/billing/invoice/usage/RawUsageOptimizer.java:136-150 | for look-back counts `0 <= n <= n'`, a larger count never gives a later start date, when every item's usage is in the catalog with a real period, every item ends by the target date, receding by `n` never moves a date later, receding by `n'` never lands later than by `n`, and for both counts a receded marker is not earlier than the target date |
| `LookBackProperties.ItemKindIgnored` | invoice/src/main/java/org/killbill/billing/invoice/usage/RawUsageOptimizer.java:117-125 | items that are not usage items are processed like usage items: the result does not depend on any item's kind |
| `InArrearUsage.TrackingIdEquality` | invoice/src/main/java/org/killbill/billing/invoice/usage/RawUsageOptimizer.java:82 | the identifier built from a row (`TrackingIdOf`) is equal for two rows exactly when they agree on tracking id, invoice id, subscription id, unit type and record date |
| `InArrearUsage.CollectTrackingIds` | invoice/src/main/java/org/killbill/billing/invoice/usage/RawUsageOptimizer.java:80-83 | an identifier is in the set exactly when some tracking row projects to it, so rows with equal tuples collapse, and there are no more identifiers than rows |
| `InArrearUsage.GetInArrearUsage` | invoice/src/main/java/org/killbill/billing/invoice/usage/RawUsageOptimizer.java:72-85 | a negative look-back uses `firstEventStartDate` without optimizing; otherwise it uses the optimizer's date or propagates its failure; raw usage and tracking identifiers are those read for [start date, target date] |

## Left out

- The two reads (`usageApi.getRawUsageForAccount`, `invoiceDao.getTrackingsByDateRange`) are function parameters. They are external storage and not part of this model.
- `RawUsageRecord` is a type parameter. `InvoiceTrackingModelDao` keeps only the five identifier fields and a row identity. Their other internals are not used by the core.
- SLF4J logging (lines 75, 120-123), including the class-loader diagnostics, is left out. It has no effect on the result.
- The `InvoiceConfig` lookup and dependency injection (lines 61-70, 73) are left out. The look-back count is a parameter.
- The bodies of `InvoiceDateUtils.advanceByNPeriods` and `recedeByNPeriods`, and Joda-Time arithmetic, are left out. They are not part of this model and stay uninterpreted.
- `StartDateWithinWindow`: holds only when `firstEventStartDate <= targetDate`, every item's usage is in the catalog with a real period, every item ends by the target date and receding never moves a date later, because the code itself checks none of these.
- `MarkersNeverChosen`: holds only when every item's usage is in the catalog with a real period, every item ends by the target date, receding never moves a date later and a receded marker is not earlier than the target date. The code checks none of these; its comment at lines 103-104 relies on the last one, and calendar arithmetic can break it (see `MarkerCanBeChosen`). Without the end-date condition, an item ending after the target date can make the result differ from the catalog-only one.
- `StartDateMonotoneInLookBack`: holds only for counts `0 <= n <= n'` when every item's usage is in the catalog with a real period, every item ends by the target date, receding by `n` never moves a date later, receding by `n'` never lands later than by `n`, and for both counts a receded marker is not earlier than the target date, because the result depends on calendar arithmetic that is not part of this model.
- Null values are not modelled: item end dates, usage names and catalog values are taken as non-null, because dates and names are plain `int` and `string` here. So the null-pointer paths of line 96 (a null `Usage` in the catalog) and line 100 (a null end date reaching the sort's comparator) are not modelled. The two scan failures are the only exceptions the model represents.
- When the scan throws part-way, the array's partial state is not modelled, because the source discards it.
- Tracking identifiers: the model takes two `TrackingRecordId`s to be equal exactly when all five fields agree (`TrackingIdEquality`), because the class and its `equals`/`hashCode` are not part of this model; if the real class compares fewer fields, `CollectTrackingIds` would merge more rows than the model says.
- Thread safety is not modelled. The computation is single-threaded and uses only local state.
