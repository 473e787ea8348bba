/** The `Entry` schema (api/models/Entry.js): one expense record. */
module EntryModel {
  import opened Wrappers
  import opened Http
  import opened UtcDates

  /** An `entries` document as stored. `metadata` (Mixed) is kept as its JSON text. */
  datatype Entry = Entry(
    id: ObjectId,
    userId: ObjectId,
    categoryId: ObjectId,
    amount: real,
    date: Instant,
    itemName: string,
    notes: Option<string>,
    quantity: Option<real>,
    pricePerLitre: Option<real>,
    morningLitres: Option<real>,
    nightLitres: Option<real>,
    metadata: Option<string>,
    paymentMode: string,
    createdAt: Instant,
    updatedAt: Instant)

  /** The entry fields a request body may carry, each possibly absent. */
  datatype EntryFields = EntryFields(
    categoryId: Option<ObjectId>,
    amount: Option<real>,
    date: Option<Instant>,
    itemName: Option<string>,
    notes: Option<string>,
    quantity: Option<real>,
    metadata: Option<string>,
    pricePerLitre: Option<real>,
    morningLitres: Option<real>,
    nightLitres: Option<real>)

  const DefaultPaymentMode: string := "Cash"

  /**
   * The schema's `required` validators: `categoryId`, `amount`, `date` and
   * `itemName` must be present, and a required string must not be empty.
   * (`userId` is always supplied by the server.)
   */
  predicate HasRequired(f: EntryFields) {
    f.categoryId.Some? && f.amount.Some? && f.date.Some? && Truthy(f.itemName)
  }

  /** What validation guarantees of a document created through the schema. */
  predicate Valid(e: Entry) {
    e.itemName != "" && e.createdAt <= e.updatedAt
  }

  /**
   * `new Entry({...}).save()` at time `now`: `None` is a validation failure.
   * Optional fields are stored as given, `paymentMode` takes its default and
   * the `timestamps` option sets `createdAt` and `updatedAt`.
   */
  function Create(id: ObjectId, userId: ObjectId, f: EntryFields, now: Instant): (r: Option<Entry>)
    ensures r.Some? <==> HasRequired(f)
    ensures r.Some? ==> Valid(r.value)
    ensures r.Some? ==> && r.value.id == id && r.value.userId == userId
                        && r.value.categoryId == f.categoryId.value && r.value.amount == f.amount.value
                        && r.value.date == f.date.value && r.value.itemName == f.itemName.value
    ensures r.Some? ==> && r.value.notes == f.notes && r.value.quantity == f.quantity
                        && r.value.pricePerLitre == f.pricePerLitre && r.value.morningLitres == f.morningLitres
                        && r.value.nightLitres == f.nightLitres && r.value.metadata == f.metadata
    ensures r.Some? ==> r.value.paymentMode == DefaultPaymentMode && r.value.createdAt == r.value.updatedAt == now
  {
    if !HasRequired(f) then None
    else Some(Entry(id, userId, f.categoryId.value, f.amount.value, f.date.value, f.itemName.value,
                    f.notes, f.quantity, f.pricePerLitre, f.morningLitres, f.nightLitres, f.metadata,
                    DefaultPaymentMode, now, now))
  }

  /** An entry lacking any one required field is refused. */
  lemma MissingFieldRefused(id: ObjectId, userId: ObjectId, f: EntryFields, now: Instant)
    requires f.categoryId.None? || f.amount.None? || f.date.None? || f.itemName.None? || f.itemName == Some("")
    ensures Create(id, userId, f, now).None?
  {
  }

  /** The litres an entry contributes to milk totals: `entry.quantity || 0`. */
  function Litres(e: Entry): real {
    e.quantity.GetOr(0.0)
  }

  function Amount(e: Entry): real {
    e.amount
  }
}
