/**
 * `/api/entries` (api/routes/entries.js): create, update and delete, each
 * scoped to the authenticated caller, and the GET dispatcher with its milk
 * aggregates and UTC month windows.
 */
module EntryRoutes {
  import opened Wrappers
  import opened Http
  import opened UtcDates
  import opened JsText
  import opened Seqs
  import opened EntryModel
  import opened CategoryModel
  import opened Store

  const ServerErrorMessage: string := "Server Error"
  const NotFoundMessage: string := "Entry not found"
  const BadQueryMessage: string := "Invalid query parameters"

  // ---------------------------------------------------------------- POST /api/entries

  /**
   * POST: the entry is stored with the caller's id whatever category it names
   * (no check that the category belongs to the caller); a validation failure
   * is a 500 and stores nothing.
   */
  method CreateEntry(db: Database, caller: ObjectId, body: EntryFields, now: Instant) returns (r: Response<Entry>)
    requires db.Valid()
    modifies db
    ensures db.Valid()
    ensures db.users == old(db.users) && db.categories == old(db.categories) && db.nextId == old(db.nextId) + 1
    ensures HasRequired(body) ==> && r.Ok? && r.body == EntryModel.Create(old(db.nextId), caller, body, now).value
                                  && db.entries == old(db.entries) + [r.body]
    ensures !HasRequired(body) ==> r == Fail(ServerError, ServerErrorMessage) && db.entries == old(db.entries)
  {
    var id := db.FreshId();
    var e := EntryModel.Create(id, caller, body, now);
    if e.None? {
      return Fail(ServerError, ServerErrorMessage);
    }
    db.entries := db.entries + [e.value];
    r := Ok(e.value);
  }

  // ---------------------------------------------------------------- PUT /api/entries/:id

  /** The `findOneAndUpdate` filter `{ _id: id, userId: caller }`. */
  function OwnedEntry(caller: ObjectId, id: ObjectId): Entry -> bool {
    (e: Entry) => e.id == id && e.userId == caller
  }

  function OwnedEntryIndex(es: seq<Entry>, caller: ObjectId, id: ObjectId): int {
    FindFirst(es, OwnedEntry(caller, id))
  }

  /**
   * The `$set` update: body fields left undefined are dropped from `$set`,
   * so they keep their stored value; `categoryId` is not among the updated
   * fields, and the `timestamps` option moves `updatedAt` to `now`.
   */
  function ApplyUpdate(e: Entry, f: EntryFields, now: Instant): (r: Entry)
    ensures && r.id == e.id && r.userId == e.userId && r.categoryId == e.categoryId
            && r.paymentMode == e.paymentMode && r.createdAt == e.createdAt && r.updatedAt == now
  {
    Entry(e.id, e.userId, e.categoryId,
          f.amount.GetOr(e.amount),
          f.date.GetOr(e.date),
          f.itemName.GetOr(e.itemName),
          if f.notes.Some? then f.notes else e.notes,
          if f.quantity.Some? then f.quantity else e.quantity,
          if f.pricePerLitre.Some? then f.pricePerLitre else e.pricePerLitre,
          if f.morningLitres.Some? then f.morningLitres else e.morningLitres,
          if f.nightLitres.Some? then f.nightLitres else e.nightLitres,
          if f.metadata.Some? then f.metadata else e.metadata,
          e.paymentMode, e.createdAt, now)
  }

  /** Every field the body carries replaces the stored value. */
  lemma UpdateSetsPresentFields(e: Entry, f: EntryFields, now: Instant)
    ensures var r := ApplyUpdate(e, f, now);
            && (f.amount.Some? ==> r.amount == f.amount.value)
            && (f.date.Some? ==> r.date == f.date.value)
            && (f.itemName.Some? ==> r.itemName == f.itemName.value)
            && (f.notes.Some? ==> r.notes == f.notes)
            && (f.quantity.Some? ==> r.quantity == f.quantity)
            && (f.metadata.Some? ==> r.metadata == f.metadata)
            && (f.pricePerLitre.Some? ==> r.pricePerLitre == f.pricePerLitre)
            && (f.morningLitres.Some? ==> r.morningLitres == f.morningLitres)
            && (f.nightLitres.Some? ==> r.nightLitres == f.nightLitres)
  {
  }

  /** Every field the body leaves out keeps its stored value. */
  lemma UpdateKeepsAbsentFields(e: Entry, f: EntryFields, now: Instant)
    ensures var r := ApplyUpdate(e, f, now);
            && (f.amount.None? ==> r.amount == e.amount)
            && (f.date.None? ==> r.date == e.date)
            && (f.itemName.None? ==> r.itemName == e.itemName)
            && (f.notes.None? ==> r.notes == e.notes)
            && (f.quantity.None? ==> r.quantity == e.quantity)
            && (f.metadata.None? ==> r.metadata == e.metadata)
            && (f.pricePerLitre.None? ==> r.pricePerLitre == e.pricePerLitre)
            && (f.morningLitres.None? ==> r.morningLitres == e.morningLitres)
            && (f.nightLitres.None? ==> r.nightLitres == e.nightLitres)
  {
  }

  /** Sending the same update twice stores the same document as sending it once. */
  lemma UpdateIdempotent(e: Entry, f: EntryFields, now: Instant)
    ensures ApplyUpdate(ApplyUpdate(e, f, now), f, now) == ApplyUpdate(e, f, now)
  {
  }

  /** An update with an empty body only moves `updatedAt`. */
  lemma EmptyUpdateOnlyTouches(e: Entry, now: Instant)
    ensures ApplyUpdate(e, EntryFields(None, None, None, None, None, None, None, None, None, None), now)
            == e.(updatedAt := now)
  {
  }

  /**
   * `findOneAndUpdate` runs no validators, so an update can store an entry
   * whose required `itemName` is empty, which `Create` would have refused.
   */
  lemma UpdateSkipsValidators(e: Entry, f: EntryFields, now: Instant)
    requires f.itemName == Some("")
    ensures !EntryModel.Valid(ApplyUpdate(e, f, now))
    ensures !HasRequired(f)
  {
  }

  /**
   * PUT: only an entry the caller owns is updated; otherwise 404 and nothing
   * changes. The updated document is the response (`{ new: true }`).
   */
  method UpdateEntry(db: Database, caller: ObjectId, id: ObjectId, body: EntryFields, now: Instant)
    returns (r: Response<Entry>)
    requires db.Valid()
    modifies db
    ensures db.Valid()
    ensures db.users == old(db.users) && db.categories == old(db.categories) && db.nextId == old(db.nextId)
    ensures var i := OwnedEntryIndex(old(db.entries), caller, id);
            if i < 0 then r == Fail(NotFound, NotFoundMessage) && db.entries == old(db.entries)
            else && r == Ok(ApplyUpdate(old(db.entries)[i], body, now))
                 && db.entries == old(db.entries)[i := r.body]
  {
    var i := OwnedEntryIndex(db.entries, caller, id);
    if i < 0 {
      return Fail(NotFound, NotFoundMessage);
    }
    var e := ApplyUpdate(db.entries[i], body, now);
    ghost var es := db.entries;
    db.entries := db.entries[i := e];
    assert forall k :: 0 <= k < |db.entries| ==> db.entries[k].id == es[k].id;
    r := Ok(e);
  }

  // ---------------------------------------------------------------- DELETE /api/entries/:id

  /**
   * DELETE: the caller's entry is looked up first (404 when absent or
   * foreign); then `deleteOne({ _id })` removes exactly that one document.
   */
  method DeleteEntry(db: Database, caller: ObjectId, id: ObjectId) returns (r: Response<string>)
    requires db.Valid()
    modifies db
    ensures db.Valid()
    ensures db.users == old(db.users) && db.categories == old(db.categories) && db.nextId == old(db.nextId)
    ensures var i := OwnedEntryIndex(old(db.entries), caller, id);
            if i < 0 then r == Fail(NotFound, NotFoundMessage) && db.entries == old(db.entries)
            else r == Ok("Entry deleted") && db.entries == old(db.entries)[..i] + old(db.entries)[i + 1..]
  {
    var i := OwnedEntryIndex(db.entries, caller, id);
    if i < 0 {
      return Fail(NotFound, NotFoundMessage);
    }
    var j := FindFirst(db.entries, (e: Entry) => e.id == id);
    EntryIdUnique(db.entries, db.nextId, i, j);
    EntryIdsRemove(db.entries, db.nextId, j);
    db.entries := db.entries[..j] + db.entries[j + 1..];
    r := Ok("Entry deleted");
  }

  /** Deleting removes one entry and keeps every other one, with its multiplicity. */
  lemma DeleteRemovesExactlyOne(es: seq<Entry>, i: int)
    requires 0 <= i < |es|
    ensures multiset(es[..i] + es[i + 1..]) == multiset(es) - multiset{es[i]}
    ensures |es[..i] + es[i + 1..]| == |es| - 1
  {
    assert es == es[..i] + [es[i]] + es[i + 1..];
  }

  // ---------------------------------------------------------------- GET /api/entries

  /**
   * The query string. `categoryId`, `month`, `parentCategory`, `start` and
   * `end` are `None` when absent or empty (falsy); `start` and `end` are the
   * instants their strings denote.
   */
  datatype EntryQuery = EntryQuery(
    categoryId: Option<ObjectId>,
    kind: Option<string>,
    month: Option<string>,
    parentCategory: Option<string>,
    start: Option<Instant>,
    end: Option<Instant>)

  /**
   * `month.split('-')`, then `parseInt` of the first two pieces; the month
   * is made 0-based. `None` stands for a `NaN` year or month.
   */
  function ParseMonth(s: string): (r: Option<(int, int)>)
    ensures r.Some? ==> ParseInt(Split(s, '-')[0]) == Some(r.value.0)
    ensures r.Some? <==> |Split(s, '-')| >= 2 && ParseInt(Split(s, '-')[0]).Some? && ParseInt(Split(s, '-')[1]).Some?
    ensures r.Some? ==> ParseInt(Split(s, '-')[1]) == Some(r.value.1 + 1)
  {
    var parts := Split(s, '-');
    var y := ParseInt(parts[0]);
    var m := if |parts| >= 2 then ParseInt(parts[1]) else None;
    if y.None? || m.None? then None else Some((y.value, m.value - 1))
  }

  /** A date condition: none, `{ $gte: lo, $lte: hi }`, or one built from an Invalid Date. */
  datatype DateFilter = AnyDate | Within(range: Range) | Unparsable

  predicate Admits(w: DateFilter, t: Instant) {
    match w
    case AnyDate => true
    case Within(r) => InRange(t, r)
    case Unparsable => false
  }

  /** `[Date.UTC(y, m, 1), Date.UTC(y, m + 1, 0, 23, 59, 59, 999)]` for the parsed month. */
  function MonthFilter(s: string): (w: DateFilter)
    ensures w.Unparsable? <==> ParseMonth(s).None?
    ensures w.Within? ==> w.range == MonthRange(ParseMonth(s).value.0, ParseMonth(s).value.1)
  {
    match ParseMonth(s)
    case None => Unparsable
    case Some((y, m)) => Within(MonthRange(y, m))
  }

  /** The milk branch's window: `start`..`end` at 23:59:59.999 UTC, else the month, else all. */
  function MilkWindow(q: EntryQuery): (w: DateFilter)
    ensures q.start.Some? && q.end.Some? ==> w == Within(Range(q.start.value, EndOfDay(q.end.value)))
    ensures !(q.start.Some? && q.end.Some?) && Truthy(q.month) ==> w == MonthFilter(q.month.value)
    ensures !(q.start.Some? && q.end.Some?) && !Truthy(q.month) ==> w == AnyDate
  {
    if q.start.Some? && q.end.Some? then Within(Range(q.start.value, EndOfDay(q.end.value)))
    else if Truthy(q.month) then MonthFilter(q.month.value)
    else AnyDate
  }

  /** The month filter of the parent-group and month-only branches. */
  function OptionalMonth(q: EntryQuery): DateFilter {
    if Truthy(q.month) then MonthFilter(q.month.value) else AnyDate
  }

  datatype MilkReport = MilkReport(
    entries: seq<Entry>,
    totalLitres: real,
    totalAmount: real,
    averageSpend: real,
    categoryId: Option<ObjectId>)

  /** The JSON body: an array of entries, or the milk report object. */
  datatype EntriesBody = Listing(items: seq<Entry>) | Report(report: MilkReport)

  /** `.sort({ date: -1 })` and `.sort({ date: 1 })`. */
  function NewestFirst(): (Entry, Entry) -> bool {
    (a: Entry, b: Entry) => a.date >= b.date
  }

  function OldestFirst(): (Entry, Entry) -> bool {
    (a: Entry, b: Entry) => a.date <= b.date
  }

  lemma DateOrdersArePreorders()
    ensures TotalPreorder(NewestFirst()) && TotalPreorder(OldestFirst())
  {
  }

  /** `.sort({ date: -1 }).limit(10)`. */
  function Latest(es: seq<Entry>): (r: seq<Entry>)
    ensures |r| == Min(10, |es|)
  {
    SortBy(es, NewestFirst())[..Min(10, |es|)]
  }

  /** `{ userId: caller, categoryId }`. */
  function InCategory(caller: ObjectId, cid: ObjectId, w: DateFilter): Entry -> bool {
    (e: Entry) => e.userId == caller && e.categoryId == cid && Admits(w, e.date)
  }

  /** `{ userId: caller, categoryId: { $in: ids } }`. */
  function InCategories(caller: ObjectId, ids: set<ObjectId>, w: DateFilter): Entry -> bool {
    (e: Entry) => e.userId == caller && e.categoryId in ids && Admits(w, e.date)
  }

  function OwnedWithin(caller: ObjectId, w: DateFilter): Entry -> bool {
    (e: Entry) => e.userId == caller && Admits(w, e.date)
  }

  /** `Category.findOne({ userId: caller, type: 'milk' })`. */
  function MilkCategoryIndex(cats: seq<Category>, caller: ObjectId): int {
    FindFirst(cats, (c: Category) => c.userId == caller && c.kind == Milk)
  }

  /** The ids of the caller's categories under `parent`. */
  function GroupIds(cats: seq<Category>, caller: ObjectId, parent: string): (ids: set<ObjectId>)
    ensures forall id :: id in ids <==> exists c :: c in cats && c.userId == caller && c.parentCategory == parent && c.id == id
  {
    set c | c in cats && c.userId == caller && c.parentCategory == parent :: c.id
  }

  /** The three `reduce`s and the average of the milk branch. */
  function Aggregate(es: seq<Entry>, cid: ObjectId): MilkReport {
    var total := SumOf(es, Amount);
    MilkReport(es, SumOf(es, Litres), total, if |es| > 0 then total / (|es| as real) else 0.0, Some(cid))
  }

  function ServerFailure(): Response<EntriesBody> {
    Fail(ServerError, ServerErrorMessage)
  }

  /**
   * GET: the first branch whose parameter is present answers; an Invalid
   * Date in a query surfaces as the 500 the `catch` block sends.
   */
  function Dispatch(q: EntryQuery, caller: ObjectId, cats: seq<Category>, es: seq<Entry>): (r: Response<EntriesBody>)
    ensures r.Fail? ==> || r == Fail(BadRequest, BadQueryMessage)
                        || r == Fail(ServerError, ServerErrorMessage)
  {
    if q.categoryId.Some? then
      Ok(Listing(Latest(Filter(es, InCategory(caller, q.categoryId.value, AnyDate)))))
    else if q.kind == Some("milk") then
      var k := MilkCategoryIndex(cats, caller);
      if k < 0 then Ok(Report(MilkReport([], 0.0, 0.0, 0.0, None)))
      else
        var w := MilkWindow(q);
        if w.Unparsable? then ServerFailure()
        else Ok(Report(Aggregate(SortBy(Filter(es, InCategory(caller, cats[k].id, w)), OldestFirst()), cats[k].id)))
    else if Truthy(q.parentCategory) then
      var w := OptionalMonth(q);
      if w.Unparsable? then ServerFailure()
      else
        var ids := GroupIds(cats, caller, q.parentCategory.value);
        Ok(Listing(SortBy(Filter(es, InCategories(caller, ids, w)), NewestFirst())))
    else if Truthy(q.month) && !Truthy(q.kind) then
      var w := MonthFilter(q.month.value);
      if w.Unparsable? then ServerFailure()
      else Ok(Listing(SortBy(Filter(es, OwnedWithin(caller, w)), NewestFirst())))
    else Fail(BadRequest, BadQueryMessage)
  }

  // ---------------------------------------------------------------- properties of GET

  /** The sorted prefix of a sorted sequence holds its greatest elements. */
  lemma {:induction false} LatestAreNewest(es: seq<Entry>)
    ensures SortedBy(Latest(es), NewestFirst())
    ensures forall x :: x in Latest(es) ==> x in es
    ensures multiset(Latest(es)) <= multiset(es)
    ensures forall e, x :: e in es && e !in Latest(es) && x in Latest(es) ==> x.date >= e.date
  {
    DateOrdersArePreorders();
    SortBySorted(es, NewestFirst());
    LatestWithinAll(es);
    forall x | x in Latest(es) ensures x in es {
      assert x in multiset(Latest(es));
    }
    LatestBeatTheRest(es);
  }

  /** The first ten of the sorted entries are some of the entries, none repeated. */
  lemma LatestWithinAll(es: seq<Entry>)
    ensures multiset(Latest(es)) <= multiset(es)
  {
    var sorted := SortBy(es, NewestFirst());
    var n := Min(10, |es|);
    assert sorted == sorted[..n] + sorted[n..];
  }

  /** An entry left out of the first ten is not newer than any entry kept. */
  lemma LatestBeatTheRest(es: seq<Entry>)
    ensures forall e, x :: e in es && e !in Latest(es) && x in Latest(es) ==> x.date >= e.date
  {
    var sorted := SortBy(es, NewestFirst());
    var n := Min(10, |es|);
    DateOrdersArePreorders();
    SortBySorted(es, NewestFirst());
    forall e, x | e in es && e !in Latest(es) && x in Latest(es) ensures x.date >= e.date {
      assert e in multiset(sorted);
      var k :| 0 <= k < |sorted| && sorted[k] == e;
      var i :| 0 <= i < n && sorted[..n][i] == x;
      assert NewestFirst()(sorted[i], sorted[k]);
    }
  }

  /**
   * A `categoryId` query answers with at most 10 of the caller's entries in
   * that category, the newest ones, newest first.
   */
  lemma CategoryQuery(q: EntryQuery, caller: ObjectId, cats: seq<Category>, es: seq<Entry>)
    requires q.categoryId.Some?
    ensures var r := Dispatch(q, caller, cats, es);
            var matches := Filter(es, InCategory(caller, q.categoryId.value, AnyDate));
            && r.Ok? && r.body.Listing?
            && |r.body.items| == Min(10, |matches|)
            && multiset(r.body.items) <= multiset(matches)
            && (forall e :: e in r.body.items ==> e in es && e.userId == caller && e.categoryId == q.categoryId.value)
            && SortedBy(r.body.items, NewestFirst())
            && (forall e, x :: e in matches && e !in r.body.items && x in r.body.items ==> x.date >= e.date)
  {
    LatestAreNewest(Filter(es, InCategory(caller, q.categoryId.value, AnyDate)));
  }

  /** In the `categoryId` branch every other parameter, `month` included, is ignored. */
  lemma CategoryQueryIgnoresRest(q: EntryQuery, q': EntryQuery, caller: ObjectId, cats: seq<Category>, es: seq<Entry>)
    requires q.categoryId.Some? && q'.categoryId == q.categoryId
    ensures Dispatch(q, caller, cats, es) == Dispatch(q', caller, cats, es)
  {
  }

  /** A milk query from a user without a milk category gets an empty report of zeros. */
  lemma MilkWithoutCategory(q: EntryQuery, caller: ObjectId, cats: seq<Category>, es: seq<Entry>)
    requires q.categoryId.None? && q.kind == Some("milk")
    requires forall c :: c in cats ==> !(c.userId == caller && c.kind == Milk)
    ensures Dispatch(q, caller, cats, es) == Ok(Report(MilkReport([], 0.0, 0.0, 0.0, None)))
  {
    assert forall j :: 0 <= j < |cats| ==> cats[j] in cats;
  }

  /** The milk branch, when the caller has a milk category and the window parses. */
  lemma MilkBranch(q: EntryQuery, caller: ObjectId, cats: seq<Category>, es: seq<Entry>)
    requires q.categoryId.None? && q.kind == Some("milk")
    requires MilkCategoryIndex(cats, caller) >= 0 && !MilkWindow(q).Unparsable?
    ensures var milk := cats[MilkCategoryIndex(cats, caller)];
            && milk in cats && milk.userId == caller && milk.kind == Milk
            && Dispatch(q, caller, cats, es)
               == Ok(Report(Aggregate(SortBy(Filter(es, InCategory(caller, milk.id, MilkWindow(q))), OldestFirst()), milk.id)))
  {
  }

  lemma MeanTimesCount(total: real, n: int)
    requires n > 0
    ensures (total / (n as real)) * (n as real) == total
  {
  }

  /** `average` is the mean of `n` values adding up to `total`, or 0 for none. */
  predicate IsMean(average: real, total: real, n: nat) {
    && (n > 0 ==> average * (n as real) == total)
    && (n == 0 ==> average == 0.0)
  }

  /** The report's average spend times the number of entries is the total spent. */
  lemma AggregateMean(es: seq<Entry>, cid: ObjectId)
    ensures var a := Aggregate(es, cid);
            && a.entries == es && a.totalAmount == SumOf(es, Amount) && a.totalLitres == SumOf(es, Litres)
            && IsMean(a.averageSpend, a.totalAmount, |es|)
            && a.categoryId == Some(cid)
  {
    if |es| > 0 {
      MeanTimesCount(SumOf(es, Amount), |es|);
    }
  }

  /** Sorting the selection oldest first keeps exactly its entries, hence also its sums. */
  lemma {:induction false} OldestFirstSelection(picked: seq<Entry>)
    ensures var sorted := SortBy(picked, OldestFirst());
            && multiset(sorted) == multiset(picked)
            && (forall e :: e in sorted <==> e in picked)
            && SortedBy(sorted, OldestFirst())
            && SumOf(sorted, Litres) == SumOf(picked, Litres)
            && SumOf(sorted, Amount) == SumOf(picked, Amount)
  {
    var sorted := SortBy(picked, OldestFirst());
    DateOrdersArePreorders();
    SortBySorted(picked, OldestFirst());
    SortBySum(picked, OldestFirst(), Litres);
    SortBySum(picked, OldestFirst(), Amount);
    forall e ensures e in sorted <==> e in picked {
      assert e in sorted <==> e in multiset(sorted);
      assert e in picked <==> e in multiset(picked);
    }
  }

  /**
   * A milk query answers with exactly the caller's milk entries inside the
   * window, oldest first, with their litre and amount totals and the
   * average spend per entry (0 when there is none).
   */
  lemma MilkReportExact(q: EntryQuery, caller: ObjectId, cats: seq<Category>, es: seq<Entry>)
    requires q.categoryId.None? && q.kind == Some("milk")
    requires MilkCategoryIndex(cats, caller) >= 0 && !MilkWindow(q).Unparsable?
    ensures var milk := cats[MilkCategoryIndex(cats, caller)];
            var picked := Filter(es, InCategory(caller, milk.id, MilkWindow(q)));
            var r := Dispatch(q, caller, cats, es);
            && milk in cats && milk.userId == caller && milk.kind == Milk
            && r.Ok? && r.body.Report? && r.body.report.categoryId == Some(milk.id)
            && (forall e :: e in r.body.report.entries <==>
                  e in es && e.userId == caller && e.categoryId == milk.id && Admits(MilkWindow(q), e.date))
            && multiset(r.body.report.entries) == multiset(picked)
            && SortedBy(r.body.report.entries, OldestFirst())
            && r.body.report.totalLitres == SumOf(picked, Litres)
            && r.body.report.totalAmount == SumOf(picked, Amount)
            && IsMean(r.body.report.averageSpend, r.body.report.totalAmount, |r.body.report.entries|)
  {
    var milk := cats[MilkCategoryIndex(cats, caller)];
    var picked := Filter(es, InCategory(caller, milk.id, MilkWindow(q)));
    var sorted := SortBy(picked, OldestFirst());
    MilkBranch(q, caller, cats, es);
    OldestFirstSelection(picked);
    AggregateMean(sorted, milk.id);
  }

  /** With `start` and `end`, the window runs from `start` to the last millisecond of `end`'s UTC day. */
  lemma StartEndWindow(q: EntryQuery, t: Instant)
    requires q.start.Some? && q.end.Some?
    ensures Admits(MilkWindow(q), t) <==> q.start.value <= t && DayOf(t) <= DayOf(q.end.value)
  {
    EndOfDayBound(q.end.value, t);
  }

  /**
   * A parsable month selects exactly the instants of that UTC calendar month
   * (months past December roll into the next year, two-digit years are 19xx).
   */
  lemma MonthFilterExact(s: string, t: Instant)
    requires ParseMonth(s).Some?
    ensures var (y, m) := ParseMonth(s).value;
            Admits(MonthFilter(s), t) <==> UtcYear(t) == FullYear(y) + m / 12 && UtcMonth(t) == m % 12
  {
    var (y, m) := ParseMonth(s).value;
    MonthRangeMembership(y, m, t);
  }

  /**
   * A `parentCategory` query answers with exactly the caller's entries whose
   * category is one of the caller's categories in that group, newest first.
   */
  lemma {:induction false} ParentQueryExact(q: EntryQuery, caller: ObjectId, cats: seq<Category>, es: seq<Entry>)
    requires q.categoryId.None? && q.kind != Some("milk") && Truthy(q.parentCategory)
    requires !OptionalMonth(q).Unparsable?
    ensures var r := Dispatch(q, caller, cats, es);
            && r.Ok? && r.body.Listing?
            && (forall e :: e in r.body.items <==>
                  && e in es && e.userId == caller && Admits(OptionalMonth(q), e.date)
                  && exists c :: c in cats && c.userId == caller && c.parentCategory == q.parentCategory.value
                                 && c.id == e.categoryId)
            && multiset(r.body.items) == multiset(Filter(es, InCategories(caller, GroupIds(cats, caller, q.parentCategory.value), OptionalMonth(q))))
            && SortedBy(r.body.items, NewestFirst())
  {
    var ids := GroupIds(cats, caller, q.parentCategory.value);
    var picked := Filter(es, InCategories(caller, ids, OptionalMonth(q)));
    var sorted := SortBy(picked, NewestFirst());
    DateOrdersArePreorders();
    SortBySorted(picked, NewestFirst());
    forall e ensures e in sorted <==> e in picked {
      assert e in sorted <==> e in multiset(sorted);
      assert e in picked <==> e in multiset(picked);
    }
  }

  /** A `month` alone answers with all of the caller's entries in that month, newest first. */
  lemma {:induction false} MonthQueryExact(q: EntryQuery, caller: ObjectId, cats: seq<Category>, es: seq<Entry>)
    requires q.categoryId.None? && !Truthy(q.kind) && !Truthy(q.parentCategory) && Truthy(q.month)
    requires ParseMonth(q.month.value).Some?
    ensures var r := Dispatch(q, caller, cats, es);
            && r.Ok? && r.body.Listing?
            && (forall e :: e in r.body.items <==>
                  e in es && e.userId == caller && Admits(MonthFilter(q.month.value), e.date))
            && multiset(r.body.items) == multiset(Filter(es, OwnedWithin(caller, MonthFilter(q.month.value))))
            && SortedBy(r.body.items, NewestFirst())
  {
    var picked := Filter(es, OwnedWithin(caller, MonthFilter(q.month.value)));
    var sorted := SortBy(picked, NewestFirst());
    DateOrdersArePreorders();
    SortBySorted(picked, NewestFirst());
    forall e ensures e in sorted <==> e in picked {
      assert e in sorted <==> e in multiset(sorted);
      assert e in picked <==> e in multiset(picked);
    }
  }

  /** 400 exactly when none of the four branches applies. */
  lemma BadRequestExactly(q: EntryQuery, caller: ObjectId, cats: seq<Category>, es: seq<Entry>)
    ensures Dispatch(q, caller, cats, es).Fail? && Dispatch(q, caller, cats, es).status == BadRequest <==>
            && q.categoryId.None? && q.kind != Some("milk") && !Truthy(q.parentCategory)
            && !(Truthy(q.month) && !Truthy(q.kind))
  {
  }

  /** A month with a `type` other than milk falls through every branch. */
  lemma GeneralMonthRejected(m: string, start: Option<Instant>, end: Option<Instant>,
                             caller: ObjectId, cats: seq<Category>, es: seq<Entry>)
    ensures Dispatch(EntryQuery(None, Some("general"), Some(m), None, start, end), caller, cats, es)
            == Fail(BadRequest, BadQueryMessage)
  {
  }

  /** A milk query is answered by the milk branch whatever group it also names. */
  lemma MilkBeforeParent(q: EntryQuery, p: Option<string>, caller: ObjectId, cats: seq<Category>, es: seq<Entry>)
    requires q.categoryId.None? && q.kind == Some("milk")
    ensures Dispatch(q, caller, cats, es) == Dispatch(q.(parentCategory := p), caller, cats, es)
    ensures Dispatch(q, caller, cats, es).Ok?  || Dispatch(q, caller, cats, es) == ServerFailure()
  {
  }

  /** Only an unparsable month (or unparsable window) causes a 500. */
  lemma ServerErrorOnlyFromDates(q: EntryQuery, caller: ObjectId, cats: seq<Category>, es: seq<Entry>)
    requires Dispatch(q, caller, cats, es).Fail? && Dispatch(q, caller, cats, es).status == ServerError
    ensures Truthy(q.month) && ParseMonth(q.month.value).None?
  {
    if q.categoryId.None? && q.kind == Some("milk") {
      assert MilkWindow(q).Unparsable?;
      if q.start.Some? && q.end.Some? {
        assert false;
      }
    } else if q.categoryId.None? && Truthy(q.parentCategory) {
      assert OptionalMonth(q).Unparsable?;
    }
  }

  /** No GET answer includes another user's entry. */
  lemma GetIsOwnerScoped(q: EntryQuery, caller: ObjectId, cats: seq<Category>, es: seq<Entry>, e: Entry)
    requires Dispatch(q, caller, cats, es).Ok?
    ensures var b := Dispatch(q, caller, cats, es).body;
            (b.Listing? && e in b.items ==> e in es && e.userId == caller)
            && (b.Report? && e in b.report.entries ==> e in es && e.userId == caller)
  {
    if q.categoryId.Some? {
      CategoryQuery(q, caller, cats, es);
    } else if q.kind == Some("milk") {
      if MilkCategoryIndex(cats, caller) >= 0 {
        MilkReportExact(q, caller, cats, es);
      }
    } else if Truthy(q.parentCategory) {
      ParentQueryExact(q, caller, cats, es);
    } else {
      MonthQueryExact(q, caller, cats, es);
    }
  }
}
