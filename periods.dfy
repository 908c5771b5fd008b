/** Billing periods of the catalog and the per-period slot layout used by the optimizer.

    The optimizer sizes its slot array as "number of periods minus one" and fills it in
    declaration order, skipping NO_BILLING_PERIOD, but later indexes it by a period's
    ordinal. The two agree because NO_BILLING_PERIOD is the last constant. The proofs
    use that fact through SlotOfOrdinal, OrdinalRoundTrip and the contract of
    FromOrdinal; NoBillingPeriodIsLast states it on its own, for the reader.
 */
module Periods {

  /** The catalog's recurrence units, in declaration order; NoBillingPeriod is last. */
  datatype BillingPeriod =
    | Daily | Weekly | Biweekly | ThirtyDays | ThirtyOneDays | SixtyDays | NinetyDays
    | Monthly | Bimestrial | Quarterly | Triannual | Biannual | Annual | Sesquiennial
    | Biennial | Triennial
    | NoBillingPeriod

  /** Number of constants of the enumeration (`BillingPeriod.values().length`). */
  const PeriodCount: nat := 17

  /** Number of slots: one per period except NoBillingPeriod. */
  const SlotCount: nat := PeriodCount - 1

  /** The enumeration's `ordinal()`: position in declaration order. */
  function Ordinal(bp: BillingPeriod): (o: nat)
    ensures o < PeriodCount
  {
    match bp
    case Daily => 0
    case Weekly => 1
    case Biweekly => 2
    case ThirtyDays => 3
    case ThirtyOneDays => 4
    case SixtyDays => 5
    case NinetyDays => 6
    case Monthly => 7
    case Bimestrial => 8
    case Quarterly => 9
    case Triannual => 10
    case Biannual => 11
    case Annual => 12
    case Sesquiennial => 13
    case Biennial => 14
    case Triennial => 15
    case NoBillingPeriod => 16
  }

  /** The constant at a given position (`BillingPeriod.values()[o]`). */
  function FromOrdinal(o: nat): (bp: BillingPeriod)
    requires o < PeriodCount
    ensures Ordinal(bp) == o
  {
    if o == 0 then Daily
    else if o == 1 then Weekly
    else if o == 2 then Biweekly
    else if o == 3 then ThirtyDays
    else if o == 4 then ThirtyOneDays
    else if o == 5 then SixtyDays
    else if o == 6 then NinetyDays
    else if o == 7 then Monthly
    else if o == 8 then Bimestrial
    else if o == 9 then Quarterly
    else if o == 10 then Triannual
    else if o == 11 then Biannual
    else if o == 12 then Annual
    else if o == 13 then Sesquiennial
    else if o == 14 then Biennial
    else if o == 15 then Triennial
    else NoBillingPeriod
  }

  /** Ordinals identify periods: the enumeration lists every constant exactly once. */
  lemma OrdinalRoundTrip(bp: BillingPeriod)
    ensures FromOrdinal(Ordinal(bp)) == bp
  {
    match bp
    case Daily =>
    case Weekly =>
    case Biweekly =>
    case ThirtyDays =>
    case ThirtyOneDays =>
    case SixtyDays =>
    case NinetyDays =>
    case Monthly =>
    case Bimestrial =>
    case Quarterly =>
    case Triannual =>
    case Biannual =>
    case Annual =>
    case Sesquiennial =>
    case Biennial =>
    case Triennial =>
    case NoBillingPeriod =>
  }

  /** NoBillingPeriod is the last constant, so a period has a slot exactly when it is
      not NoBillingPeriod, and the slot filled at running index i is the one whose
      period has ordinal i. */
  lemma SlotOfOrdinal(bp: BillingPeriod)
    ensures Ordinal(bp) < SlotCount <==> bp != NoBillingPeriod
  {
    OrdinalRoundTrip(bp);
  }

  lemma NoBillingPeriodIsLast()
    ensures Ordinal(NoBillingPeriod) == PeriodCount - 1
    ensures forall o: nat :: o < SlotCount ==> FromOrdinal(o) != NoBillingPeriod
  {
  }
}
