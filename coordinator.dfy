/** `RawUsageOptimizer.getInArrearUsage`: pick the start date (optimised unless the
    configured look-back is negative), read raw usage and tracking rows for
    [start date, target date] from the two stores, and collect the tracking identifiers.
    The two reads are function parameters: the stores are not part of this model. */
module InArrearUsage {
  import opened Wrappers
  import opened Periods
  import opened UsageCatalog
  import opened OptimizerSpec
  import opened RawUsageOptimizer

  /** A row of the tracking store (`InvoiceTrackingModelDao`); `recordId` stands for the
      row's own identity, which the tracking identifier leaves out. */
  datatype TrackingRow = TrackingRow(recordId: int, trackingId: string, invoiceId: string,
                                     subscriptionId: string, unitType: string, recordDate: Date)

  /** `TrackingRecordId`: equal tuples are equal identifiers. */
  datatype TrackingRecordId = TrackingRecordId(trackingId: string, invoiceId: string,
                                               subscriptionId: string, unitType: string, recordDate: Date)

  /** `RawUsageOptimizerResult`, over the store's raw usage record type `R`. */
  datatype RawUsageOptimizerResult<R> =
    RawUsageOptimizerResult(rawUsageStartDate: Date, rawUsage: seq<R>, existingTrackingIds: set<TrackingRecordId>)

  /** The identifier built from a tracking row. */
  function TrackingIdOf(row: TrackingRow): TrackingRecordId
  {
    TrackingRecordId(row.trackingId, row.invoiceId, row.subscriptionId, row.unitType, row.recordDate)
  }

  /** Two rows give the same identifier exactly when they agree on the five identifier
      fields; the row's own identity plays no part. */
  lemma TrackingIdEquality(a: TrackingRow, b: TrackingRow)
    ensures TrackingIdOf(a) == TrackingIdOf(b) <==>
              a.trackingId == b.trackingId && a.invoiceId == b.invoiceId && a.subscriptionId == b.subscriptionId &&
              a.unitType == b.unitType && a.recordDate == b.recordDate
  {
  }

  /** The `HashSet` filled from the tracking rows: one identifier per row, rows with equal
      tuples giving the same identifier. */
  method CollectTrackingIds(trackingIds: seq<TrackingRow>) returns (existingTrackingIds: set<TrackingRecordId>)
    ensures forall id :: id in existingTrackingIds <==> exists k :: 0 <= k < |trackingIds| && TrackingIdOf(trackingIds[k]) == id
    ensures |existingTrackingIds| <= |trackingIds|
  {
    existingTrackingIds := {};
    var k := 0;
    while k < |trackingIds|
      invariant 0 <= k <= |trackingIds|
      invariant forall id :: id in existingTrackingIds <==> exists j :: 0 <= j < k && TrackingIdOf(trackingIds[j]) == id
      invariant |existingTrackingIds| <= k
    {
      existingTrackingIds := existingTrackingIds + {TrackingIdOf(trackingIds[k])};
      k := k + 1;
    }
  }

  /** The start date, the raw usage and the tracking identifiers of [start, target]. A
      negative look-back skips the optimizer; a failure of the optimizer propagates. */
  method GetInArrearUsage<R>(firstEventStartDate: Date, targetDate: Date, existingUsageItems: seq<InvoiceItem>,
                             knownUsage: Catalog, configRawUsagePreviousPeriod: int,
                             advance: DateShift, recede: DateShift,
                             getRawUsageForAccount: (Date, Date) -> seq<R>,
                             getTrackingsByDateRange: (Date, Date) -> seq<TrackingRow>)
    returns (r: Result<RawUsageOptimizerResult<R>, Failure>)
    ensures configRawUsagePreviousPeriod < 0 ==> r.Ok? && r.value.rawUsageStartDate == firstEventStartDate
    ensures configRawUsagePreviousPeriod >= 0 ==>
              match OptimizedStartDate(firstEventStartDate, targetDate, existingUsageItems, knownUsage,
                                       configRawUsagePreviousPeriod, advance, recede)
              case Ok(d) => r.Ok? && r.value.rawUsageStartDate == d
              case Err(e) => r == Err(e)
    ensures r.Ok? ==> r.value.rawUsage == getRawUsageForAccount(r.value.rawUsageStartDate, targetDate)
    ensures r.Ok? ==> forall id :: id in r.value.existingTrackingIds <==>
              exists row :: row in getTrackingsByDateRange(r.value.rawUsageStartDate, targetDate) && TrackingIdOf(row) == id
  {
    var optimizedStartDate;
    if configRawUsagePreviousPeriod >= 0 {
      var optimized := GetOptimizedRawUsageStartDate(firstEventStartDate, targetDate, existingUsageItems, knownUsage,
                                                     configRawUsagePreviousPeriod, advance, recede);
      if optimized.Err? {
        return Err(optimized.error);
      }
      optimizedStartDate := optimized.value;
    } else {
      optimizedStartDate := firstEventStartDate;
    }
    var rawUsageData := getRawUsageForAccount(optimizedStartDate, targetDate);
    var trackingIds := getTrackingsByDateRange(optimizedStartDate, targetDate);
    var existingTrackingIds := CollectTrackingIds(trackingIds);
    r := Ok(RawUsageOptimizerResult(optimizedStartDate, rawUsageData, existingTrackingIds));
  }
}
