/**
 * `/api/categories` (api/routes/categories.js): the default category list,
 * listing with first-use seeding, creation, rename, and delete with its
 * cascade to the caller's entries.
 */
module CategoryRoutes {
  import opened Wrappers
  import opened Http
  import opened UtcDates
  import opened Seqs
  import opened EntryModel
  import opened CategoryModel
  import opened Store

  const ServerErrorMessage: string := "Server Error"
  const NotFoundMessage: string := "Category not found"

  // ---------------------------------------------------------------- DEFAULTS

  /** One item of `DEFAULTS`: a category without owner, id or timestamp. */
  datatype Seed = Seed(parentCategory: string, name: string, kind: Kind)

  const Miscellaneous: string := "Miscellaneous"
  const Savings: string := "Savings"

  const Defaults: seq<Seed> := [
    Seed("Daily Expenses", "Milk", Milk),
    Seed("Daily Expenses", "Newspaper", General),
    Seed("Daily Expenses", "Fruits & Vegetables", General),
    Seed("Daily Expenses", "Water Can", General),
    Seed("Utilities & Bills", "EB Bill", General),
    Seed("Utilities & Bills", "Mobile Recharge", General),
    Seed("Utilities & Bills", "Internet/Wi-Fi", General),
    Seed("Utilities & Bills", "Gas Cylinder", General),
    Seed("Groceries", "Supermarket / Monthly Shopping", General),
    Seed("Groceries", "Local Grocery Store", General),
    Seed("Groceries", "Dairy Products", General),
    Seed(Miscellaneous, "Travel", General),
    Seed(Miscellaneous, "Function / Gift", General),
    Seed(Miscellaneous, "Donations", General),
    Seed(Miscellaneous, "Happy Plates", General),
    Seed(Savings, "PPF", General),
    Seed(Savings, "RD", General),
    Seed(Savings, "LIC", General),
    Seed(Savings, "GOLDCHIT", General),
    Seed(Savings, "FD", General)
  ]

  function DefaultGroups(): set<string> {
    set i | 0 <= i < |Defaults| :: Defaults[i].parentCategory
  }

  /** Twenty defaults in five parent groups. */
  lemma DefaultsShape()
    ensures |Defaults| == 20
    ensures DefaultGroups() == {"Daily Expenses", "Utilities & Bills", "Groceries", Miscellaneous, Savings}
    ensures |DefaultGroups()| == 5
  {
    var g := DefaultGroups();
    assert Defaults[0].parentCategory == "Daily Expenses";
    assert Defaults[4].parentCategory == "Utilities & Bills";
    assert Defaults[8].parentCategory == "Groceries";
    assert Defaults[11].parentCategory == Miscellaneous;
    assert Defaults[15].parentCategory == Savings;
    assert g == {"Daily Expenses", "Utilities & Bills", "Groceries", Miscellaneous, Savings};
  }

  /** Exactly one default is a milk category: Milk under Daily Expenses, listed first. */
  lemma DefaultsOneMilk()
    ensures forall i :: 0 <= i < |Defaults| ==> (Defaults[i].kind == Milk <==> i == 0)
    ensures Defaults[0] == Seed("Daily Expenses", "Milk", Milk)
  {
  }

  /**
   * `insertMany(DEFAULTS.map(d => ({ ...d, userId })))` from id `firstId` on.
   * Each document takes its own `createdAt` default: `clock(i)` is the
   * `Date.now` reading made for the `i`-th one.
   */
  function SeedFor(caller: ObjectId, firstId: ObjectId, clock: nat -> Instant): (r: seq<Category>)
    ensures |r| == |Defaults|
    ensures forall i :: 0 <= i < |r| ==>
              r[i] == Category(firstId + i, caller, Defaults[i].parentCategory, Defaults[i].name, Defaults[i].kind, clock(i))
  {
    seq(|Defaults|, i requires 0 <= i < |Defaults| =>
      Category(firstId + i, caller, Defaults[i].parentCategory, Defaults[i].name, Defaults[i].kind, clock(i)))
  }

  /** A clock that never goes back: later readings are no earlier. */
  ghost predicate NeverBack(clock: nat -> Instant) {
    forall i: nat, j: nat :: i <= j ==> clock(i) <= clock(j)
  }

  /** Every seeded category passes validation and belongs to the caller. */
  lemma SeedValid(caller: ObjectId, firstId: ObjectId, clock: nat -> Instant)
    ensures forall c :: c in SeedFor(caller, firstId, clock) ==> CategoryModel.Valid(c) && c.userId == caller
  {
    var r := SeedFor(caller, firstId, clock);
    forall c | c in r ensures CategoryModel.Valid(c) && c.userId == caller {
      var i :| 0 <= i < |r| && r[i] == c;
    }
  }

  // ---------------------------------------------------------------- GET /api/categories

  function OwnedBy(caller: ObjectId): Category -> bool {
    (c: Category) => c.userId == caller
  }

  /**
   * The listing filter: `parent` when given; otherwise, with
   * `dashboard=true`, everything but the Miscellaneous and Savings groups.
   */
  function Visible(caller: ObjectId, parent: Option<string>, dashboard: Option<string>): Category -> bool {
    (c: Category) =>
      && c.userId == caller
      && (if Truthy(parent) then c.parentCategory == parent.value
          else if dashboard == Some("true") then c.parentCategory != Miscellaneous && c.parentCategory != Savings
          else true)
  }

  /** `.sort({ createdAt: 1 })`. */
  function ByCreation(): (Category, Category) -> bool {
    (a: Category, b: Category) => a.createdAt <= b.createdAt
  }

  function Listing(cats: seq<Category>, caller: ObjectId, parent: Option<string>, dashboard: Option<string>): seq<Category> {
    SortBy(Filter(cats, Visible(caller, parent, dashboard)), ByCreation())
  }

  /** `countDocuments({ userId }) === 0`, then `insertMany`; otherwise nothing is inserted. */
  function SeedStep(cats: seq<Category>, caller: ObjectId, firstId: ObjectId, clock: nat -> Instant): seq<Category> {
    if |Filter(cats, OwnedBy(caller))| == 0 then cats + SeedFor(caller, firstId, clock) else cats
  }

  /**
   * A listing holds exactly the caller's categories that pass the filter,
   * oldest first; `parent` wins over `dashboard`.
   */
  lemma {:induction false} ListingExact(cats: seq<Category>, caller: ObjectId, parent: Option<string>, dashboard: Option<string>)
    ensures var r := Listing(cats, caller, parent, dashboard);
            && multiset(r) == multiset(Filter(cats, Visible(caller, parent, dashboard)))
            && (forall c :: c in r <==>
                  && c in cats && c.userId == caller
                  && (Truthy(parent) ==> c.parentCategory == parent.value)
                  && (!Truthy(parent) && dashboard == Some("true") ==>
                        c.parentCategory != Miscellaneous && c.parentCategory != Savings))
            && SortedBy(r, ByCreation())
  {
    var picked := Filter(cats, Visible(caller, parent, dashboard));
    var r := SortBy(picked, ByCreation());
    assert TotalPreorder(ByCreation());
    SortBySorted(picked, ByCreation());
    forall c ensures c in r <==> c in picked {
      assert c in r <==> c in multiset(r);
      assert c in picked <==> c in multiset(picked);
    }
  }

  /** Seeding adds only categories of the caller: every other user's categories are as before. */
  lemma SeedStepSparesOthers(cats: seq<Category>, caller: ObjectId, firstId: ObjectId, clock: nat -> Instant, other: ObjectId)
    requires other != caller
    ensures Filter(SeedStep(cats, caller, firstId, clock), OwnedBy(other)) == Filter(cats, OwnedBy(other))
  {
    if |Filter(cats, OwnedBy(caller))| == 0 {
      var seed := SeedFor(caller, firstId, clock);
      FilterAppend(cats, seed, OwnedBy(other));
      SeedValid(caller, firstId, clock);
      FilterNone(seed, OwnedBy(other));
      assert Filter(cats, OwnedBy(other)) + [] == Filter(cats, OwnedBy(other));
    }
  }

  /** After one GET the caller owns categories, so a second GET never seeds again. */
  lemma SecondGetNeverSeeds(cats: seq<Category>, caller: ObjectId, firstId: ObjectId, clock: nat -> Instant,
                            firstId': ObjectId, clock': nat -> Instant)
    ensures var once := SeedStep(cats, caller, firstId, clock);
            SeedStep(once, caller, firstId', clock') == once
  {
    if |Filter(cats, OwnedBy(caller))| == 0 {
      var seed := SeedFor(caller, firstId, clock);
      assert seed[0] in cats + seed;
      assert seed[0] in Filter(cats + seed, OwnedBy(caller));
    }
  }

  /**
   * A new user's first unfiltered GET answers with all twenty defaults, in
   * the order of `DEFAULTS`, as long as the clock does not go back during
   * the insertion.
   */
  lemma {:induction false} FirstGetListsDefaults(cats: seq<Category>, caller: ObjectId, firstId: ObjectId, clock: nat -> Instant)
    requires forall c :: c in cats ==> c.userId != caller
    requires NeverBack(clock)
    ensures Listing(SeedStep(cats, caller, firstId, clock), caller, None, None) == SeedFor(caller, firstId, clock)
  {
    NewUserSelection(cats, caller, firstId, clock);
    SeedInCreationOrder(caller, firstId, clock);
  }

  /**
   * The documents are built in `DEFAULTS` order, so with a clock that does
   * not go back the seed is already in `createdAt` order and the stable sort
   * keeps it as it is.
   */
  lemma SeedInCreationOrder(caller: ObjectId, firstId: ObjectId, clock: nat -> Instant)
    requires NeverBack(clock)
    ensures SortedBy(SeedFor(caller, firstId, clock), ByCreation())
    ensures SortBy(SeedFor(caller, firstId, clock), ByCreation()) == SeedFor(caller, firstId, clock)
  {
    var seed := SeedFor(caller, firstId, clock);
    forall i, j | 0 <= i < j < |seed| ensures ByCreation()(seed[i], seed[j]) {
      assert clock(i) <= clock(j);
    }
    SortByOfSorted(seed, ByCreation());
  }

  /** For a user owning nothing, the seeding step runs and the unfiltered selection is the seed. */
  lemma {:induction false} NewUserSelection(cats: seq<Category>, caller: ObjectId, firstId: ObjectId, clock: nat -> Instant)
    requires forall c :: c in cats ==> c.userId != caller
    ensures Filter(SeedStep(cats, caller, firstId, clock), Visible(caller, None, None)) == SeedFor(caller, firstId, clock)
  {
    var seed := SeedFor(caller, firstId, clock);
    var v := Visible(caller, None, None);
    assert forall i :: 0 <= i < |cats| ==> !OwnedBy(caller)(cats[i]) && !v(cats[i]);
    FilterNone(cats, OwnedBy(caller));
    assert SeedStep(cats, caller, firstId, clock) == cats + seed;
    FilterAppend(cats, seed, v);
    FilterNone(cats, v);
    SeedOwnedAtOnce(caller, firstId, clock);
    FilterAll(seed, v);
    assert [] + seed == seed;
  }

  lemma SeedOwnedAtOnce(caller: ObjectId, firstId: ObjectId, clock: nat -> Instant)
    ensures var seed := SeedFor(caller, firstId, clock);
            forall i :: 0 <= i < |seed| ==> Visible(caller, None, None)(seed[i])
  {
  }

  /** The dashboard view never shows the Miscellaneous or Savings groups. */
  lemma DashboardHidesFolders(cats: seq<Category>, caller: ObjectId, c: Category)
    requires c in Listing(cats, caller, None, Some("true"))
    ensures c.parentCategory != Miscellaneous && c.parentCategory != Savings
  {
    ListingExact(cats, caller, None, Some("true"));
  }

  /** Seeding keeps the store's invariant. */
  lemma SeedKeepsIds(cats: seq<Category>, caller: ObjectId, nextId: ObjectId, clock: nat -> Instant)
    requires CategoryIdsOk(cats, nextId)
    requires forall i :: 0 <= i < |cats| ==> CategoryModel.Valid(cats[i])
    ensures var r := cats + SeedFor(caller, nextId, clock);
            && CategoryIdsOk(r, nextId + |Defaults|)
            && (forall i :: 0 <= i < |r| ==> CategoryModel.Valid(r[i]))
  {
    var seed := SeedFor(caller, nextId, clock);
    var r := cats + seed;
    SeedValid(caller, nextId, clock);
    forall i | 0 <= i < |r| ensures CategoryModel.Valid(r[i]) {
      if i >= |cats| {
        assert r[i] == seed[i - |cats|];
        assert seed[i - |cats|] in seed;
      }
    }
    forall a, b | 0 <= a < b < |r| ensures r[a].id != r[b].id {
      if b >= |cats| {
        assert r[b] == seed[b - |cats|];
        if a >= |cats| {
          assert r[a] == seed[a - |cats|];
        }
      }
    }
  }

  /**
   * GET: the listing is computed; when the caller owns no category at all,
   * the defaults are inserted and the listing computed again. Existing
   * users are never re-seeded, whatever defaults they lack. `clock` gives
   * the `Date.now` readings made while the defaults are built.
   */
  method GetCategories(db: Database, caller: ObjectId, parent: Option<string>, dashboard: Option<string>, clock: nat -> Instant)
    returns (r: Response<seq<Category>>)
    requires db.Valid()
    modifies db
    ensures db.Valid()
    ensures db.users == old(db.users) && db.entries == old(db.entries)
    ensures |Filter(old(db.categories), OwnedBy(caller))| == 0 ==>
              && db.categories == old(db.categories) + SeedFor(caller, old(db.nextId), clock)
              && db.nextId == old(db.nextId) + |Defaults|
    ensures |Filter(old(db.categories), OwnedBy(caller))| != 0 ==>
              db.categories == old(db.categories) && db.nextId == old(db.nextId)
    ensures db.categories == SeedStep(old(db.categories), caller, old(db.nextId), clock)
    ensures r == Ok(Listing(db.categories, caller, parent, dashboard))
  {
    var categories := Listing(db.categories, caller, parent, dashboard);
    var count := |Filter(db.categories, OwnedBy(caller))|;
    if count == 0 {
      ghost var before := db.categories;
      SeedKeepsIds(db.categories, caller, db.nextId, clock);
      IdsGrow(db.users, db.entries, db.nextId, db.nextId + |Defaults|);
      db.categories := db.categories + SeedFor(caller, db.nextId, clock);
      assert db.categories == SeedStep(before, caller, old(db.nextId), clock);
      db.nextId := db.nextId + |Defaults|;
      assert UserIdsOk(db.users, db.nextId) && EntryIdsOk(db.entries, db.nextId);
      assert CategoryIdsOk(db.categories, db.nextId);
      assert forall i :: 0 <= i < |db.categories| ==> CategoryModel.Valid(db.categories[i]);
      assert db.Valid();
      categories := Listing(db.categories, caller, parent, dashboard);
    }
    r := Ok(categories);
  }

  // ---------------------------------------------------------------- POST /api/categories

  /** `type || 'general'`. */
  function RequestedKind(kind: Option<string>): string {
    if Truthy(kind) then kind.value else "general"
  }

  /**
   * POST: the category is stored for the caller. There is no duplicate
   * check: success depends only on the request body, never on what is
   * already stored.
   */
  method CreateCategory(db: Database, caller: ObjectId, parent: Option<string>, name: Option<string>,
                        kind: Option<string>, now: Instant) returns (r: Response<Category>)
    requires db.Valid()
    modifies db
    ensures db.Valid()
    ensures db.users == old(db.users) && db.entries == old(db.entries) && db.nextId == old(db.nextId) + 1
    ensures r.Ok? <==> Truthy(parent) && Truthy(name) && ParseKind(RequestedKind(kind)).Some?
    ensures r.Ok? ==> && r.body == CategoryModel.Create(old(db.nextId), caller, parent, name, Some(RequestedKind(kind)), now).value
                      && db.categories == old(db.categories) + [r.body]
    ensures r.Fail? ==> r == Fail(ServerError, ServerErrorMessage) && db.categories == old(db.categories)
  {
    var id := db.FreshId();
    var c := CategoryModel.Create(id, caller, parent, name, Some(RequestedKind(kind)), now);
    if c.None? {
      return Fail(ServerError, ServerErrorMessage);
    }
    db.categories := db.categories + [c.value];
    r := Ok(c.value);
  }

  /** An absent or empty `type` gives a general category. */
  lemma CreateDefaultsToGeneral(id: ObjectId, caller: ObjectId, parent: Option<string>, name: Option<string>,
                                kind: Option<string>, now: Instant)
    requires Truthy(parent) && Truthy(name) && !Truthy(kind)
    ensures CategoryModel.Create(id, caller, parent, name, Some(RequestedKind(kind)), now).Some?
    ensures CategoryModel.Create(id, caller, parent, name, Some(RequestedKind(kind)), now).value.kind == General
  {
  }

  // ---------------------------------------------------------------- PUT /api/categories/:id

  /** `{ _id: id, userId: caller }`. */
  function OwnedCategory(caller: ObjectId, id: ObjectId): Category -> bool {
    (c: Category) => c.id == id && c.userId == caller
  }

  function OwnedCategoryIndex(cats: seq<Category>, caller: ObjectId, id: ObjectId): int {
    FindFirst(cats, OwnedCategory(caller, id))
  }

  /** `if (name) category.name = name`. */
  function Renamed(c: Category, name: Option<string>): (r: Category)
    ensures r.(name := c.name) == c
    ensures Truthy(name) ==> r.name == name.value
    ensures !Truthy(name) ==> r == c
    ensures CategoryModel.Valid(c) ==> CategoryModel.Valid(r)
  {
    if Truthy(name) then c.(name := name.value) else c
  }

  /** PUT: only the caller's category is renamed; otherwise 404 and nothing changes. */
  method RenameCategory(db: Database, caller: ObjectId, id: ObjectId, name: Option<string>) returns (r: Response<Category>)
    requires db.Valid()
    modifies db
    ensures db.Valid()
    ensures db.users == old(db.users) && db.entries == old(db.entries) && db.nextId == old(db.nextId)
    ensures var i := OwnedCategoryIndex(old(db.categories), caller, id);
            if i < 0 then r == Fail(NotFound, NotFoundMessage) && db.categories == old(db.categories)
            else && r == Ok(Renamed(old(db.categories)[i], name))
                 && db.categories == old(db.categories)[i := r.body]
  {
    var i := OwnedCategoryIndex(db.categories, caller, id);
    if i < 0 {
      return Fail(NotFound, NotFoundMessage);
    }
    var c := Renamed(db.categories[i], name);
    ghost var cs := db.categories;
    db.categories := db.categories[i := c];
    assert forall k :: 0 <= k < |db.categories| ==> db.categories[k].id == cs[k].id;
    r := Ok(c);
  }

  // ---------------------------------------------------------------- DELETE /api/categories/:id

  /** The entries that survive `deleteMany({ categoryId: id, userId: caller })`. */
  function Survives(caller: ObjectId, id: ObjectId): Entry -> bool {
    (e: Entry) => !(e.categoryId == id && e.userId == caller)
  }

  /**
   * DELETE: 404 unless the caller owns the category; otherwise the caller's
   * entries in it are deleted, then the category itself.
   */
  method DeleteCategory(db: Database, caller: ObjectId, id: ObjectId) returns (r: Response<string>)
    requires db.Valid()
    modifies db
    ensures db.Valid()
    ensures db.users == old(db.users) && db.nextId == old(db.nextId)
    ensures var i := OwnedCategoryIndex(old(db.categories), caller, id);
            if i < 0 then r == Fail(NotFound, NotFoundMessage) && db.categories == old(db.categories)
                          && db.entries == old(db.entries)
            else && r == Ok("Category and entries deleted")
                 && db.categories == old(db.categories)[..i] + old(db.categories)[i + 1..]
                 && db.entries == Filter(old(db.entries), Survives(caller, id))
  {
    var i := OwnedCategoryIndex(db.categories, caller, id);
    if i < 0 {
      return Fail(NotFound, NotFoundMessage);
    }
    EntryIdsFilter(db.entries, db.nextId, Survives(caller, id));
    db.entries := Filter(db.entries, Survives(caller, id));
    var j := FindFirst(db.categories, (c: Category) => c.id == id);
    CategoryIdUnique(db.categories, db.nextId, i, j);
    CategoryIdsRemove(db.categories, db.nextId, j);
    db.categories := db.categories[..j] + db.categories[j + 1..];
    r := Ok("Category and entries deleted");
  }

  /**
   * The cascade removes exactly the caller's entries in the category: every
   * other entry, another user's entry in the same category included, stays
   * with its multiplicity.
   */
  lemma CascadeExact(es: seq<Entry>, caller: ObjectId, id: ObjectId, e: Entry)
    ensures multiset(Filter(es, Survives(caller, id)))[e] ==
            if e.categoryId == id && e.userId == caller then 0 else multiset(es)[e]
  {
    FilterMultiset(es, Survives(caller, id), e);
  }
}
