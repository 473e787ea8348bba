/**
 * The milk tracker's arithmetic in `renderMilkTracker` and `handleMilkSearch`
 * (public/script.js): the validation of a search range, the list of days in
 * the range and its 28-day pages, and the yearly analysis that puts each
 * entry into one of twelve monthly buckets.
 */
module MilkTracker {
  import opened Wrappers
  import opened UtcDates
  import opened Seqs
  import opened EntryModel

  // ---------------------------------------------------------------- the search form

  /** What `handleMilkSearch` does with the two date inputs. */
  datatype SearchDecision = MissingDates | FromAfterTo | Search(from: int, to: int)

  /**
   * Both inputs must be filled (`None` is an empty input) and `from` must not
   * be after `to`; days are day numbers.
   */
  function DecideSearch(from: Option<int>, to: Option<int>): SearchDecision {
    if from.None? || to.None? then MissingDates
    else if from.value > to.value then FromAfterTo
    else Search(from.value, to.value)
  }

  /**
   * Each outcome happens exactly when its condition holds: a missing input
   * stops the search, then a `from` after `to`; otherwise the search runs
   * over the two dates as given.
   */
  lemma DecideSearchExact(from: Option<int>, to: Option<int>)
    ensures DecideSearch(from, to) == MissingDates <==> from.None? || to.None?
    ensures DecideSearch(from, to) == FromAfterTo <==> from.Some? && to.Some? && from.value > to.value
    ensures DecideSearch(from, to).Search? <==> from.Some? && to.Some? && from.value <= to.value
    ensures DecideSearch(from, to).Search? ==> DecideSearch(from, to) == Search(from.value, to.value)
  {
  }

  // ---------------------------------------------------------------- days and pages

  /** The days from `from` to `to` inclusive, one per day; empty when `from` is after `to`. */
  function DayRange(from: int, to: int): (r: seq<int>)
    ensures |r| == if to < from then 0 else to - from + 1
    ensures forall i :: 0 <= i < |r| ==> r[i] == from + i
  {
    if to < from then [] else seq(to - from + 1, i => from + i)
  }

  /** The loop that pushes every day from the start to the end date into `allDates`. */
  method AllDates(first: int, last: int) returns (dates: seq<int>)
    ensures dates == DayRange(first, last)
  {
    dates := [];
    var d := first;
    while d <= last
      invariant first <= d && (d <= last + 1 || d == first)
      invariant |dates| == d - first
      invariant forall i :: 0 <= i < |dates| ==> dates[i] == first + i
      decreases last - d
    {
      dates := dates + [d];
      d := d + 1;
    }
  }

  const PageSize: nat := 28

  /** `Math.ceil(n / 28)`. */
  function TotalPages(n: nat): nat {
    (n + PageSize - 1) / PageSize
  }

  /** The page count is the least number of 28-day pages that hold `n` days. */
  lemma TotalPagesIsCeiling(n: nat)
    ensures n <= TotalPages(n) * PageSize
    ensures TotalPages(n) == 0 || (TotalPages(n) - 1) * PageSize < n
    ensures TotalPages(n) == 0 <==> n == 0
  {
  }

  /** `if (page < 1) page = 1; if (page > totalPages) page = totalPages;`. */
  function ClampPage(page: int, total: nat): int {
    var p := if page < 1 then 1 else page;
    if p > total then total else p
  }

  /** With at least one page the clamped page is a real page, and a real page is left alone. */
  lemma ClampPageBounds(page: int, total: nat)
    ensures total >= 1 ==> 1 <= ClampPage(page, total) <= total
    ensures 1 <= page <= total ==> ClampPage(page, total) == page
    ensures total == 0 ==> ClampPage(page, total) == 0
  {
  }

  /**
   * `Array.prototype.slice(start, end)` (section 23.1.3.28 of ECMA-262): a
   * negative bound counts from the end, bounds are clamped to the array, and
   * an empty range gives an empty array.
   */
  function JsSlice<T>(s: seq<T>, start: int, end: int): (r: seq<T>)
    ensures exists lo, hi :: 0 <= lo <= hi <= |s| && r == s[lo..hi]
  {
    var lo := if start < 0 then (if |s| + start < 0 then 0 else |s| + start) else (if start > |s| then |s| else start);
    var hi := if end < 0 then (if |s| + end < 0 then 0 else |s| + end) else (if end > |s| then |s| else end);
    if lo < hi then s[lo..hi] else s[lo..lo]
  }

  /** The dates shown for a requested page: the page is clamped, then 28 dates are sliced from its start. */
  function Page<T>(dates: seq<T>, page: int): seq<T> {
    var p := ClampPage(page, TotalPages(|dates|));
    var start := (p - 1) * PageSize;
    JsSlice(dates, start, start + PageSize)
  }

  /** Page `p` of the real pages is the `p`-th run of 28 dates (the last one possibly shorter). */
  lemma PageIsRun<T>(dates: seq<T>, p: int)
    requires 1 <= p <= TotalPages(|dates|)
    ensures (p - 1) * PageSize < |dates|
    ensures Page(dates, p) == dates[(p - 1) * PageSize..Min(p * PageSize, |dates|)]
  {
    TotalPagesIsCeiling(|dates|);
    ClampPageBounds(p, TotalPages(|dates|));
  }

  /** Every page holds at most 28 dates, and a page of a day range holds consecutive days. */
  lemma PageShape(from: int, to: int, page: int)
    ensures |Page(DayRange(from, to), page)| <= PageSize
    ensures var pg := Page(DayRange(from, to), page);
            forall i :: 0 <= i < |pg| - 1 ==> pg[i + 1] == pg[i] + 1
  {
    var dates := DayRange(from, to);
    var total := TotalPages(|dates|);
    TotalPagesIsCeiling(|dates|);
    ClampPageBounds(page, total);
    var p := ClampPage(page, total);
    if total == 0 {
      assert Page(dates, page) == [];
    } else {
      PageIsRun(dates, p);
    }
  }

  /** Pages 1 to `k`, one after another. */
  function Pages<T>(dates: seq<T>, k: nat): seq<T> {
    if k == 0 then [] else Pages(dates, k - 1) + Page(dates, k)
  }

  /** Reading the pages in order goes through the first `28 k` dates. */
  lemma {:induction false} PagesPrefix<T>(dates: seq<T>, k: nat)
    requires k <= TotalPages(|dates|)
    ensures Pages(dates, k) == dates[..Min(k * PageSize, |dates|)]
  {
    if k > 0 {
      PagesPrefix(dates, k - 1);
      PageIsRun(dates, k);
      assert dates[..Min(k * PageSize, |dates|)]
          == dates[..(k - 1) * PageSize] + dates[(k - 1) * PageSize..Min(k * PageSize, |dates|)];
    }
  }

  /** Concatenating every page gives the whole date list back. */
  lemma PagesCoverAll<T>(dates: seq<T>)
    ensures Pages(dates, TotalPages(|dates|)) == dates
  {
    PagesPrefix(dates, TotalPages(|dates|));
    TotalPagesIsCeiling(|dates|);
  }

  /** A valid search covers at least one day, so it has at least one page and page 1 starts on its first day. */
  lemma SearchHasPages(from: Option<int>, to: Option<int>)
    requires DecideSearch(from, to).Search?
    ensures var d := DecideSearch(from, to);
            var dates := DayRange(d.from, d.to);
            && TotalPages(|dates|) >= 1
            && |Page(dates, 1)| >= 1 && Page(dates, 1)[0] == from.value
  {
    var d := DecideSearch(from, to);
    var dates := DayRange(d.from, d.to);
    TotalPagesIsCeiling(|dates|);
    PageIsRun(dates, 1);
  }

  /**
   * The search-pagination block: with both ends of the range it lists the
   * days and cuts out the requested page; without them there is one page and no dates.
   */
  method Paginate(from: Option<int>, to: Option<int>, page: int) returns (pageDates: seq<int>, totalPages: int)
    ensures from.Some? && to.Some? ==>
              && totalPages == TotalPages(|DayRange(from.value, to.value)|)
              && pageDates == Page(DayRange(from.value, to.value), page)
    ensures from.None? || to.None? ==> pageDates == [] && totalPages == 1
  {
    if from.None? || to.None? {
      return [], 1;
    }
    var allDates := AllDates(from.value, to.value);
    var total := TotalPages(|allDates|);
    var p := page;
    if p < 1 {
      p := 1;
    }
    if p > total {
      p := total;
    }
    var startIndex := (p - 1) * PageSize;
    pageDates := JsSlice(allDates, startIndex, startIndex + PageSize);
    totalPages := total;
  }

  // ---------------------------------------------------------------- yearly analysis

  /** One element of `monthStats`. */
  datatype MonthStat = MonthStat(amount: real, litres: real)

  function StatAmount(s: MonthStat): real {
    s.amount
  }

  function StatLitres(s: MonthStat): real {
    s.litres
  }

  /**
   * `new Date(e.date).getMonth()`; the buckets below are stated for any key
   * that picks one of the twelve months, and this is the key the script uses.
   */
  function MonthOfEntry(): Entry -> int {
    (e: Entry) => UtcMonth(e.date)
  }

  ghost predicate MonthKey(key: Entry -> int) {
    forall e :: 0 <= key(e) < 12
  }

  lemma MonthOfEntryIsKey()
    ensures MonthKey(MonthOfEntry())
  {
    forall e: Entry ensures 0 <= MonthOfEntry()(e) < 12 {
      assert MonthOfEntry()(e) == UtcMonth(e.date);
    }
  }

  /** `key(e) === m`. */
  function InMonth(key: Entry -> int, m: int): Entry -> bool {
    (e: Entry) => key(e) == m
  }

  /**
   * The bucket of month `m`: the amounts and the litres (`quantity || 0`) of
   * the entries keyed to it; `SumWhereFilter` equates these sums with the sums
   * over the filtered entries.
   */
  function Bucket(es: seq<Entry>, key: Entry -> int, m: int): MonthStat {
    MonthStat(SumWhere(es, InMonth(key, m), Amount), SumWhere(es, InMonth(key, m), Litres))
  }

  /** Adding one entry adds its amount and litres to its own month's bucket and to no other. */
  lemma BucketStep(es: seq<Entry>, key: Entry -> int, e: Entry, m: int)
    ensures Bucket(es + [e], key, m) ==
              if key(e) == m then MonthStat(Bucket(es, key, m).amount + e.amount, Bucket(es, key, m).litres + Litres(e))
              else Bucket(es, key, m)
  {
    SumWhereSnoc(es, e, InMonth(key, m), Amount);
    SumWhereSnoc(es, e, InMonth(key, m), Litres);
  }

  /** `key(e) >= lo`. */
  function FromMonth(key: Entry -> int, lo: int): Entry -> bool {
    (e: Entry) => key(e) >= lo
  }

  /**
   * Summing one field over buckets for months `lo` to 11 sums the
   * corresponding entry field over the entries keyed to those months.
   */
  lemma {:induction false} BucketsSum(es: seq<Entry>, key: Entry -> int, stats: seq<MonthStat>, lo: nat,
                                      pick: MonthStat -> real, f: Entry -> real)
    requires lo <= 12 && |stats| == 12 - lo && MonthKey(key)
    requires forall m :: 0 <= m < |stats| ==> pick(stats[m]) == SumWhere(es, InMonth(key, lo + m), f)
    ensures SumOf(stats, pick) == SumWhere(es, FromMonth(key, lo), f)
    decreases 12 - lo
  {
    if lo == 12 {
      SumWhereEverywhere(es, FromMonth(key, lo), f);
    } else {
      var rest := stats[1..];
      assert forall m :: 0 <= m < |rest| ==> rest[m] == stats[m + 1];
      BucketsSum(es, key, rest, lo + 1, pick, f);
      SumWhereSplit(es, FromMonth(key, lo), InMonth(key, lo), FromMonth(key, lo + 1), f);
    }
  }

  /** Every entry falls in exactly one of the twelve buckets, so the buckets add up to the whole. */
  lemma BucketsPartition(es: seq<Entry>, key: Entry -> int, stats: seq<MonthStat>)
    requires MonthKey(key)
    requires |stats| == 12 && forall m :: 0 <= m < 12 ==> stats[m] == Bucket(es, key, m)
    ensures SumOf(stats, StatAmount) == SumOf(es, Amount)
    ensures SumOf(stats, StatLitres) == SumOf(es, Litres)
  {
    BucketsSum(es, key, stats, 0, StatAmount, Amount);
    BucketsSum(es, key, stats, 0, StatLitres, Litres);
    SumWhereEverywhere(es, FromMonth(key, 0), Amount);
    SumWhereEverywhere(es, FromMonth(key, 0), Litres);
  }

  /** `Math.max(...xs)` over a non-empty list. */
  function MaxOf(xs: seq<real>): (r: real)
    requires |xs| > 0
    ensures forall i :: 0 <= i < |xs| ==> xs[i] <= r
    ensures exists i :: 0 <= i < |xs| && xs[i] == r
  {
    if |xs| == 1 then xs[0]
    else
      var rest := MaxOf(xs[1..]);
      assert forall i :: 1 <= i < |xs| ==> xs[i] == xs[1..][i - 1];
      if xs[0] >= rest then xs[0] else rest
  }

  /** The `forEach` over the entries: twelve zeroed buckets, each entry added to the bucket of its month. */
  method FillBuckets(es: seq<Entry>, key: Entry -> int) returns (stats: seq<MonthStat>)
    requires MonthKey(key)
    ensures |stats| == 12
    ensures forall m :: 0 <= m < 12 ==> stats[m] == Bucket(es, key, m)
  {
    var monthStats := new MonthStat[12](_ => MonthStat(0.0, 0.0));
    var i := 0;
    while i < |es|
      invariant 0 <= i <= |es|
      invariant forall m :: 0 <= m < 12 ==> monthStats[m] == Bucket(es[..i], key, m)
    {
      var e := es[i];
      var m := key(e);
      assert es[..i + 1] == es[..i] + [e];
      forall k | 0 <= k < 12
        ensures Bucket(es[..i + 1], key, k) ==
                  if m == k then MonthStat(Bucket(es[..i], key, k).amount + e.amount, Bucket(es[..i], key, k).litres + Litres(e))
                  else Bucket(es[..i], key, k)
      {
        BucketStep(es[..i], key, e, k);
      }
      monthStats[m] := MonthStat(monthStats[m].amount + e.amount, monthStats[m].litres + Litres(e));
      i := i + 1;
    }
    assert es[..|es|] == es;
    stats := monthStats[..];
  }

  /**
   * The yearly analysis: the monthly buckets, the yearly totals summed over
   * them, and the largest monthly amount.
   */
  method YearlyStats(es: seq<Entry>) returns (stats: seq<MonthStat>, totalAmount: real, totalLitres: real, maxAmount: real)
    ensures |stats| == 12
    ensures forall m :: 0 <= m < 12 ==> stats[m] == Bucket(es, MonthOfEntry(), m)
    ensures totalAmount == SumOf(es, Amount) && totalLitres == SumOf(es, Litres)
    ensures forall m :: 0 <= m < 12 ==> stats[m].amount <= maxAmount
    ensures exists m :: 0 <= m < 12 && stats[m].amount == maxAmount
  {
    MonthOfEntryIsKey();
    stats := FillBuckets(es, MonthOfEntry());
    BucketsPartition(es, MonthOfEntry(), stats);
    totalAmount := SumOf(stats, StatAmount);
    totalLitres := SumOf(stats, StatLitres);
    var amounts := seq(12, k requires 0 <= k < 12 => stats[k].amount);
    maxAmount := MaxOf(amounts);
    assert forall m :: 0 <= m < 12 ==> amounts[m] == stats[m].amount;
  }
}
