/** The inputs of the optimizer: catalog usages, previously generated invoice items, and
    the failures a lookup of one in the other can raise. */
module UsageCatalog {
  import opened Periods

  /** A calendar date as a day number (Joda `LocalDate`); later dates are larger. */
  type Date = int

  /** A catalog usage section: only its billing period matters here. */
  datatype Usage = Usage(name: string, billingPeriod: BillingPeriod)

  /** The catalog in effect: usage name to usage (`Map<String, Usage> knownUsage`). */
  type Catalog = map<string, Usage>

  /** Whether an invoice item is a `UsageInvoiceItem`. Any other kind is only logged by the
      optimizer and then processed like a usage item. */
  datatype ItemKind = UsageItem | OtherItem

  /** A previously generated invoice item: its kind, its end date and the name of the usage
      it was billed under. */
  datatype InvoiceItem = InvoiceItem(kind: ItemKind, endDate: Date, usageName: string)

  /** The unchecked exceptions the slot update can raise. */
  datatype Failure =
      /** `knownUsage.get(name)` returned null and was dereferenced (NullPointerException). */
    | MissingUsageDefinition(usageName: string)
      /** A usage with NO_BILLING_PERIOD indexed one past the slot array
          (ArrayIndexOutOfBoundsException). */
    | SlotIndexOutOfBounds(index: nat)

  /** The item is billed under a catalog usage whose period is `bp`. */
  predicate RefersTo(item: InvoiceItem, catalog: Catalog, bp: BillingPeriod)
  {
    item.usageName in catalog && catalog[item.usageName].billingPeriod == bp
  }

  /** The item can be placed in a slot: its usage is in the catalog with a real period. */
  predicate Consistent(item: InvoiceItem, catalog: Catalog)
  {
    item.usageName in catalog && catalog[item.usageName].billingPeriod != NoBillingPeriod
  }
}
