/**
 * The client's selected month (public/script.js): `navMonth` and
 * `shiftMonth` step the global `STATE.selectedMonth` / `STATE.selectedYear`
 * with wrap-around, and the views turn the selection into the `YYYY-MM`
 * string they send as the `month` query parameter.
 */
module MonthNav {
  import opened Wrappers
  import opened UtcDates
  import opened JsText
  import opened EntryRoutes

  /**
   * The step both handlers perform: add `delta` to the month; above 11 it
   * becomes January of the next year, below 0 December of the previous one.
   * Whatever the inputs, the month that comes out is in 0..11.
   */
  function Step(month: int, year: int, delta: int): (r: (int, int))
    ensures 0 <= r.0 < 12
    ensures 0 <= month + delta < 12 ==> r == (month + delta, year)
  {
    var m := month + delta;
    if m > 11 then (0, year + 1) else if m < 0 then (11, year - 1) else (m, year)
  }

  /** Forward from December is January of the next year; back from January is December of the previous one. */
  lemma StepWraps(year: int)
    ensures Step(11, year, 1) == (0, year + 1)
    ensures Step(0, year, -1) == (11, year - 1)
  {
  }

  /** For the ±1 steps the buttons make, a step moves exactly one calendar month. */
  lemma StepIsOneMonth(month: int, year: int, delta: int)
    requires 0 <= month < 12
    requires delta == 1 || delta == -1
    ensures var (m, y) := Step(month, year, delta);
            12 * y + m == 12 * year + month + delta
  {
  }

  /** A step forward followed by a step back, or back then forward, returns to the same month. */
  lemma StepUndo(month: int, year: int)
    requires 0 <= month < 12
    ensures var (m, y) := Step(month, year, 1); Step(m, y, -1) == (month, year)
    ensures var (m, y) := Step(month, year, -1); Step(m, y, 1) == (month, year)
  {
  }

  /** The parts of the global `STATE` the month navigation reads and writes. */
  class ViewState {
    var selectedMonth: int
    var selectedYear: int

    constructor (month: int, year: int)
      ensures selectedMonth == month && selectedYear == year
    {
      selectedMonth := month;
      selectedYear := year;
    }

    /** `navMonth(delta)`: computes the new month and year first, then stores the year and calls `setMonth`. */
    method NavMonth(delta: int)
      modifies this
      ensures (selectedMonth, selectedYear) == Step(old(selectedMonth), old(selectedYear), delta)
    {
      var newM := selectedMonth + delta;
      var newY := selectedYear;
      if newM > 11 {
        newM := 0;
        newY := newY + 1;
      } else if newM < 0 {
        newM := 11;
        newY := newY - 1;
      }
      selectedYear := newY;
      SetMonth(newM);
    }

    /** `setMonth(m)`: stores the month (the re-render is not modelled). */
    method SetMonth(m: int)
      modifies this
      ensures selectedMonth == m && selectedYear == old(selectedYear)
    {
      selectedMonth := m;
    }

    /** `shiftMonth(delta, containerId)`: updates the month field in place, then corrects it. */
    method ShiftMonth(delta: int)
      modifies this
      ensures (selectedMonth, selectedYear) == Step(old(selectedMonth), old(selectedYear), delta)
    {
      selectedMonth := selectedMonth + delta;
      if selectedMonth > 11 {
        selectedMonth := 0;
        selectedYear := selectedYear + 1;
      } else if selectedMonth < 0 {
        selectedMonth := 11;
        selectedYear := selectedYear - 1;
      }
    }
  }

  // ---------------------------------------------------------------- the month query string

  /** `String(n).padStart(2, '0')`. */
  function Pad2(n: nat): (s: string)
    ensures |s| >= 2
    ensures forall i :: 0 <= i < |s| ==> DigitValue(s[i], 10).Some?
  {
    if n < 10 then "0" + Decimal(n) else Decimal(n)
  }

  lemma ParsePad2(n: nat)
    ensures '-' !in Pad2(n)
    ensures ParseInt(Pad2(n)) == Some(n)
  {
    var s := Pad2(n);
    forall i | 0 <= i < |s| ensures s[i] != '-' {
      DecimalDigit(s[i]);
    }
    if n < 10 {
      DecimalValue(n);
      LeadingZero(Decimal(n), 10);
      ParseDigits(s);
    } else {
      ParseDecimal(n);
    }
  }

  /** `${selectedYear}-${String(selectedMonth + 1).padStart(2, '0')}`. */
  function FormatMonth(year: nat, month: nat): string {
    Decimal(year) + "-" + Pad2(month + 1)
  }

  /** The server reads the month string the client writes back as the same (year, month). */
  lemma FormatParseMonth(year: nat, month: nat)
    ensures ParseMonth(FormatMonth(year, month)) == Some((year, month))
  {
    ParsePad2(month + 1);
    SplitAfterPiece(Decimal(year), Pad2(month + 1), '-');
    assert FormatMonth(year, month) == Decimal(year) + ['-'] + Pad2(month + 1);
    SplitPlain(Pad2(month + 1), '-');
    ParseDecimal(year);
  }

  /**
   * For a selected year from 100 on (below it `Date.UTC` would read the year
   * as 19yy), the month query the client builds admits exactly the instants
   * of the selected UTC calendar month.
   */
  lemma SelectedMonthQuery(year: nat, month: nat, t: Instant)
    requires year >= 100 && month < 12
    ensures Admits(MonthFilter(FormatMonth(year, month)), t) <==> UtcYear(t) == year && UtcMonth(t) == month
  {
    FormatParseMonth(year, month);
    MonthRangeMembership(year, month, t);
  }
}
