/**
 * The spending summary (`renderSpendingSummary` in public/script.js) and the
 * dashboard's monthly total: the month's entries sorted oldest first, their
 * grand total, a per-group tally kept in a map in first-seen order, and the
 * group totals sorted by amount, largest first.
 */
module SpendingSummary {
  import opened Http
  import opened Seqs
  import opened EntryModel
  import opened CategoryModel
  import opened EntryRoutes

  const OtherGroup: string := "Other"

  /** One `{ name, amount }` element of `categoryTotals`, or one key of `categoriesMap` with its value. */
  datatype GroupTotal = GroupTotal(name: string, amount: real)

  /**
   * The group an entry is counted under: the parent group of its category,
   * or the category's own name when that is empty, or `Other` when the
   * category is not among the loaded ones.
   */
  function GroupOf(e: Entry, cats: seq<Category>): string {
    var i := FindFirst(cats, (c: Category) => c.id == e.categoryId);
    if i < 0 then OtherGroup
    else if cats[i].parentCategory != "" then cats[i].parentCategory
    else cats[i].name
  }

  /** The first loaded category with the entry's id decides its group; without one it is `Other`. */
  lemma GroupOfCases(e: Entry, cats: seq<Category>, i: int)
    requires 0 <= i < |cats| && cats[i].id == e.categoryId
    requires forall j :: 0 <= j < i ==> cats[j].id != e.categoryId
    ensures GroupOf(e, cats) == if cats[i].parentCategory != "" then cats[i].parentCategory else cats[i].name
  {
  }

  lemma GroupOfUnknown(e: Entry, cats: seq<Category>)
    requires forall c :: c in cats ==> c.id != e.categoryId
    ensures GroupOf(e, cats) == OtherGroup
  {
  }

  function InGroup(cats: seq<Category>, g: string): Entry -> bool {
    (e: Entry) => GroupOf(e, cats) == g
  }

  function IndexOf(acc: seq<GroupTotal>, name: string): (k: int)
    ensures -1 <= k < |acc|
    ensures 0 <= k ==> acc[k].name == name
    ensures k == -1 <==> forall j :: 0 <= j < |acc| ==> acc[j].name != name
  {
    FindFirst(acc, (t: GroupTotal) => t.name == name)
  }

  /** `categoriesMap[name] = (categoriesMap[name] || 0) + amount`; a new key goes last. */
  function AddTo(acc: seq<GroupTotal>, name: string, amount: real): seq<GroupTotal> {
    var k := IndexOf(acc, name);
    if k < 0 then acc + [GroupTotal(name, amount)]
    else acc[k := GroupTotal(name, acc[k].amount + amount)]
  }

  /** The map after the `forEach` over `es`, as its entries in insertion order. */
  function Tally(es: seq<Entry>, cats: seq<Category>): seq<GroupTotal> {
    if es == [] then []
    else
      var e := es[|es| - 1];
      AddTo(Tally(es[..|es| - 1], cats), GroupOf(e, cats), e.amount)
  }

  function TotalAmount(t: GroupTotal): real {
    t.amount
  }

  ghost predicate DistinctNames(acc: seq<GroupTotal>) {
    forall i, j :: 0 <= i < j < |acc| ==> acc[i].name != acc[j].name
  }

  /** Each row of the tally is the sum of the amounts of its group's entries. */
  ghost predicate RowsAreGroupSums(acc: seq<GroupTotal>, es: seq<Entry>, cats: seq<Category>) {
    forall k :: 0 <= k < |acc| ==> acc[k].amount == SumWhere(es, InGroup(cats, acc[k].name), Amount)
  }

  /** `AddTo` one element at a time: the old rows keep their names, only the first row named `name` grows. */
  lemma AddToAt(acc: seq<GroupTotal>, name: string, amount: real, j: int)
    requires 0 <= j < |AddTo(acc, name, amount)|
    ensures var r := AddTo(acc, name, amount);
            && (j < |acc| ==> r[j].name == acc[j].name &&
                              r[j].amount == acc[j].amount + (if j == IndexOf(acc, name) then amount else 0.0))
            && (j == |acc| ==> r[j] == GroupTotal(name, amount) && IndexOf(acc, name) == -1)
  {
  }

  lemma AddToLength(acc: seq<GroupTotal>, name: string, amount: real)
    ensures |AddTo(acc, name, amount)| == |acc| + (if IndexOf(acc, name) < 0 then 1 else 0)
  {
  }

  lemma AddToDistinct(acc: seq<GroupTotal>, name: string, amount: real)
    requires DistinctNames(acc)
    ensures DistinctNames(AddTo(acc, name, amount))
  {
    var r := AddTo(acc, name, amount);
    AddToLength(acc, name, amount);
    forall i, j | 0 <= i < j < |r| ensures r[i].name != r[j].name {
      AddToAt(acc, name, amount, i);
      AddToAt(acc, name, amount, j);
    }
  }

  /** The set of groups the entries fall into. */
  function GroupNames(es: seq<Entry>, cats: seq<Category>): set<string> {
    if es == [] then {} else GroupNames(es[..|es| - 1], cats) + {GroupOf(es[|es| - 1], cats)}
  }

  /** A name is a group of the entries exactly when some entry belongs to it. */
  lemma {:induction false} GroupNamesMembers(es: seq<Entry>, cats: seq<Category>, g: string)
    ensures g in GroupNames(es, cats) <==> exists e :: e in es && GroupOf(e, cats) == g
  {
    if es != [] {
      var init, last := es[..|es| - 1], es[|es| - 1];
      GroupNamesMembers(init, cats, g);
      assert es == init + [last];
      if g in GroupNames(init, cats) {
        var e :| e in init && GroupOf(e, cats) == g;
        assert e in es;
      }
    }
  }

  /** A group no entry belongs to sums to 0. */
  lemma {:induction false} SumWhereNone(es: seq<Entry>, cats: seq<Category>, g: string)
    requires g !in GroupNames(es, cats)
    ensures SumWhere(es, InGroup(cats, g), Amount) == 0.0
  {
    if es != [] {
      var init, last := es[..|es| - 1], es[|es| - 1];
      SumWhereNone(init, cats, g);
      SumWhereSnoc(init, last, InGroup(cats, g), Amount);
      assert init + [last] == es;
    }
  }

  lemma AddToSums(acc: seq<GroupTotal>, es: seq<Entry>, e: Entry, cats: seq<Category>)
    requires DistinctNames(acc) && RowsAreGroupSums(acc, es, cats)
    requires forall n :: IndexOf(acc, n) >= 0 <==> n in GroupNames(es, cats)
    ensures RowsAreGroupSums(AddTo(acc, GroupOf(e, cats), e.amount), es + [e], cats)
  {
    var g := GroupOf(e, cats);
    var r := AddTo(acc, g, e.amount);
    AddToLength(acc, g, e.amount);
    forall j | 0 <= j < |r|
      ensures r[j].amount == SumWhere(es + [e], InGroup(cats, r[j].name), Amount)
    {
      AddToAt(acc, g, e.amount, j);
      SumWhereSnoc(es, e, InGroup(cats, r[j].name), Amount);
      if j < |acc| {
        var k := IndexOf(acc, g);
        assert j == k <==> acc[j].name == g;
      } else {
        SumWhereNone(es, cats, g);
      }
    }
  }

  /** After adding to `name`, a name has a row exactly when it had one before or is `name`. */
  lemma AddToFinds(acc: seq<GroupTotal>, name: string, amount: real, n: string)
    ensures IndexOf(AddTo(acc, name, amount), n) >= 0 <==> IndexOf(acc, n) >= 0 || n == name
  {
    var r := AddTo(acc, name, amount);
    var k := IndexOf(acc, name);
    AddToLength(acc, name, amount);
    if n == name {
      var m := if k < 0 then |acc| else k;
      AddToAt(acc, name, amount, m);
      assert r[m].name == n;
    } else if IndexOf(acc, n) >= 0 {
      var m := IndexOf(acc, n);
      AddToAt(acc, name, amount, m);
      assert r[m].name == n;
    } else {
      forall j | 0 <= j < |r| ensures r[j].name != n {
        AddToAt(acc, name, amount, j);
      }
    }
  }

  lemma AddToTotal(acc: seq<GroupTotal>, name: string, amount: real)
    ensures SumOf(AddTo(acc, name, amount), TotalAmount) == SumOf(acc, TotalAmount) + amount
  {
    var k := IndexOf(acc, name);
    if k < 0 {
      var one := [GroupTotal(name, amount)];
      SumAppend(acc, one, TotalAmount);
      assert one[1..] == [];
    } else {
      SumUpdate(acc, k, GroupTotal(name, acc[k].amount + amount), TotalAmount);
    }
  }

  /** The tally never names a group twice. */
  lemma {:induction false} TallyDistinct(es: seq<Entry>, cats: seq<Category>)
    ensures DistinctNames(Tally(es, cats))
  {
    if es != [] {
      var e := es[|es| - 1];
      TallyDistinct(es[..|es| - 1], cats);
      AddToDistinct(Tally(es[..|es| - 1], cats), GroupOf(e, cats), e.amount);
    }
  }

  /** Each row's amount is the sum over the entries of that group. */
  lemma {:induction false} TallySums(es: seq<Entry>, cats: seq<Category>)
    ensures RowsAreGroupSums(Tally(es, cats), es, cats)
  {
    if es != [] {
      var init, e := es[..|es| - 1], es[|es| - 1];
      assert init + [e] == es;
      var acc := Tally(init, cats);
      assert Tally(es, cats) == AddTo(acc, GroupOf(e, cats), e.amount);
      TallySums(init, cats);
      TallyDistinct(init, cats);
      TallyGroups(init, cats);
      AddToSums(acc, init, e, cats);
    }
  }

  /** The rows are exactly the groups of the entries. */
  lemma {:induction false} TallyGroups(es: seq<Entry>, cats: seq<Category>)
    ensures forall n :: IndexOf(Tally(es, cats), n) >= 0 <==> n in GroupNames(es, cats)
  {
    if es != [] {
      var init, e := es[..|es| - 1], es[|es| - 1];
      TallyGroups(init, cats);
      forall n ensures IndexOf(Tally(es, cats), n) >= 0 <==> n in GroupNames(es, cats) {
        AddToFinds(Tally(init, cats), GroupOf(e, cats), e.amount, n);
      }
    }
  }

  /** The rows add up to the sum of all the amounts. */
  lemma {:induction false} TallyTotal(es: seq<Entry>, cats: seq<Category>)
    ensures SumOf(Tally(es, cats), TotalAmount) == SumOf(es, Amount)
  {
    if es != [] {
      var init, e := es[..|es| - 1], es[|es| - 1];
      TallyTotal(init, cats);
      AddToTotal(Tally(init, cats), GroupOf(e, cats), e.amount);
      SumAppend(init, [e], Amount);
      assert [e][1..] == [];
      assert init + [e] == es;
    }
  }

  /** `(a, b) => b.amount - a.amount`: larger amounts first. */
  function LargestFirst(): (GroupTotal, GroupTotal) -> bool {
    (a: GroupTotal, b: GroupTotal) => a.amount >= b.amount
  }

  lemma LargestFirstIsPreorder()
    ensures TotalPreorder(LargestFirst())
  {
  }

  /** The month's entries, sorted oldest first as the history view shows them. */
  function History(es: seq<Entry>): seq<Entry> {
    SortBy(es, OldestFirst())
  }

  /** The summary's output for the month's entries: the grand total and the sorted group totals. */
  function Summary(es: seq<Entry>, cats: seq<Category>): (real, seq<GroupTotal>) {
    var sorted := History(es);
    (SumOf(sorted, Amount), SortBy(Tally(sorted, cats), LargestFirst()))
  }

  /** The `forEach` that fills `categoriesMap`, one entry at a time. */
  method TallyEntries(entries: seq<Entry>, cats: seq<Category>) returns (categoriesMap: seq<GroupTotal>)
    ensures categoriesMap == Tally(entries, cats)
  {
    categoriesMap := [];
    var i := 0;
    while i < |entries|
      invariant 0 <= i <= |entries|
      invariant categoriesMap == Tally(entries[..i], cats)
    {
      var e := entries[i];
      var parent := GroupOf(e, cats);
      var k := IndexOf(categoriesMap, parent);
      ghost var before := categoriesMap;
      if k < 0 {
        categoriesMap := categoriesMap + [GroupTotal(parent, e.amount)];
      } else {
        categoriesMap := categoriesMap[k := GroupTotal(parent, categoriesMap[k].amount + e.amount)];
      }
      assert categoriesMap == AddTo(before, parent, e.amount);
      assert entries[..i + 1][..i] == entries[..i];
      i := i + 1;
    }
    assert entries[..|entries|] == entries;
  }

  /**
   * `renderSpendingSummary` once the month's entries are loaded: sort them,
   * sum them, tally them by group in one pass, sort the group totals.
   */
  method RenderSpendingSummary(allEntries: seq<Entry>, cats: seq<Category>)
    returns (grandTotal: real, categoryTotals: seq<GroupTotal>)
    ensures (grandTotal, categoryTotals) == Summary(allEntries, cats)
  {
    var sorted := History(allEntries);
    grandTotal := SumOf(sorted, Amount);
    var categoriesMap := TallyEntries(sorted, cats);
    categoryTotals := SortBy(categoriesMap, LargestFirst());
  }

  /** The grand total is the sum of the month's amounts, and the group totals add up to it. */
  lemma SummaryGrandTotal(es: seq<Entry>, cats: seq<Category>)
    ensures Summary(es, cats).0 == SumOf(es, Amount)
    ensures SumOf(Summary(es, cats).1, TotalAmount) == Summary(es, cats).0
  {
    var sorted := History(es);
    SortBySum(es, OldestFirst(), Amount);
    TallyTotal(sorted, cats);
    SortBySum(Tally(sorted, cats), LargestFirst(), TotalAmount);
  }

  /** The group totals come largest first. */
  lemma SummaryLargestFirst(es: seq<Entry>, cats: seq<Category>)
    ensures SortedBy(Summary(es, cats).1, LargestFirst())
  {
    LargestFirstIsPreorder();
    SortBySorted(Tally(History(es), cats), LargestFirst());
  }

  /** No group is listed twice. */
  lemma SummaryDistinct(es: seq<Entry>, cats: seq<Category>)
    ensures DistinctNames(Summary(es, cats).1)
  {
    var tally := Tally(History(es), cats);
    var totals := Summary(es, cats).1;
    TallyDistinct(History(es), cats);
    forall i, j | 0 <= i < j < |totals| ensures totals[i].name != totals[j].name {
      TotalsDistinct(tally, totals, i, j);
    }
  }

  /** Each listed amount is the sum of the month's amounts in that group, whatever order they came in. */
  lemma SummarySums(es: seq<Entry>, cats: seq<Category>)
    ensures RowsAreGroupSums(Summary(es, cats).1, es, cats)
  {
    var sorted := History(es);
    var tally := Tally(sorted, cats);
    var totals := Summary(es, cats).1;
    TallySums(sorted, cats);
    forall k | 0 <= k < |totals|
      ensures totals[k].amount == SumWhere(es, InGroup(cats, totals[k].name), Amount)
    {
      assert totals[k] in multiset(tally);
      var m :| 0 <= m < |tally| && tally[m] == totals[k];
      SumWherePermutation(sorted, es, InGroup(cats, totals[k].name), Amount);
    }
  }

  /** A group is listed exactly when some entry of the month belongs to it. */
  lemma SummaryGroups(es: seq<Entry>, cats: seq<Category>, g: string)
    ensures IndexOf(Summary(es, cats).1, g) >= 0 <==> exists e :: e in es && GroupOf(e, cats) == g
  {
    var sorted := History(es);
    TallyGroups(sorted, cats);
    GroupNamesMembers(sorted, cats, g);
    IndexOfPermutation(Tally(sorted, cats), Summary(es, cats).1, g);
    assert forall e :: e in sorted <==> e in es by {
      assert forall e :: e in sorted <==> e in multiset(sorted);
    }
  }

  lemma IndexOfPermutation(a: seq<GroupTotal>, b: seq<GroupTotal>, g: string)
    requires multiset(a) == multiset(b)
    ensures IndexOf(a, g) >= 0 <==> IndexOf(b, g) >= 0
  {
    if IndexOf(a, g) >= 0 {
      assert a[IndexOf(a, g)] in multiset(b);
    }
    if IndexOf(b, g) >= 0 {
      assert b[IndexOf(b, g)] in multiset(a);
    }
  }

  /** Rows with distinct names stay distinct when reordered. */
  lemma TotalsDistinct(tally: seq<GroupTotal>, totals: seq<GroupTotal>, i: int, j: int)
    requires DistinctNames(tally)
    requires multiset(totals) == multiset(tally)
    requires 0 <= i < j < |totals|
    ensures totals[i].name != totals[j].name
  {
    if totals[i].name == totals[j].name {
      assert totals[i] in multiset(tally) && totals[j] in multiset(tally);
      var a :| 0 <= a < |tally| && tally[a] == totals[i];
      var b :| 0 <= b < |tally| && tally[b] == totals[j];
      if a == b {
        var x := totals[i];
        assert totals == totals[..i] + [x] + totals[i + 1..j] + [x] + totals[j + 1..];
        assert multiset(totals)[x] >= 2;
        DistinctOnce(tally, a);
      }
    }
  }

  /** In a tally with distinct names every row occurs once. */
  lemma {:induction false} DistinctOnce(tally: seq<GroupTotal>, a: int)
    requires DistinctNames(tally)
    requires 0 <= a < |tally|
    ensures multiset(tally)[tally[a]] == 1
  {
    var rest := tally[1..];
    assert tally == [tally[0]] + rest;
    if a == 0 {
      forall y | 0 <= y < |rest| ensures rest[y] != tally[0] {
        assert rest[y] == tally[y + 1];
      }
      assert tally[0] !in rest;
    } else {
      forall x, y | 0 <= x < y < |rest| ensures rest[x].name != rest[y].name {
        assert rest[x] == tally[x + 1] && rest[y] == tally[y + 1];
      }
      DistinctOnce(rest, a - 1);
      assert rest[a - 1] == tally[a];
    }
  }

  /** The dashboard's "Total Monthly Spending": `allEntries.reduce((sum, d) => sum + d.amount, 0)`. */
  function DashboardTotal(es: seq<Entry>): real {
    SumOf(es, Amount)
  }

  /** Both views fetch the same month listing, and the summary's grand total equals the dashboard total. */
  lemma DashboardAgreesWithSummary(es: seq<Entry>, cats: seq<Category>)
    ensures Summary(es, cats).0 == DashboardTotal(es)
  {
    SortBySum(es, OldestFirst(), Amount);
  }
}
