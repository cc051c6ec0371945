/** The calendar arithmetic of the domino-ui `DatePicker`: month navigation
    over a (year, month) pair, the weekday-name index shifted by the locale's
    first day of the week, the default year window of the constructor, and
    the year and month selector options built by `initSelectors`.

    Months are numbered 0..11 as by `JsDate.getMonth()`. Day-of-month
    overflow of the JavaScript Date setters is not modelled: only the
    (year, month) pair is. The buttons and the year select box set the year
    through `setYear`, which reads 0..99 as 1900..1999; that behaviour is
    kept in the `AsWritten` members, while `NavigateBefore`, `NavigateNext`
    and `SelectYear` step the year plainly. */
module DatePicker {

  datatype Option<T> = None | Some(value: T)

  // ---------------------------------------------------------------- months

  datatype YearMonth = YearMonth(year: int, month: int)

  predicate ValidMonth(ym: YearMonth) {
    0 <= ym.month <= 11
  }

  /** The number of months since January of year 0: a reference numbering
      in which navigation is plain successor and predecessor. */
  function MonthIndex(ym: YearMonth): int {
    ym.year * 12 + ym.month
  }

  function FromMonthIndex(k: int): (ym: YearMonth)
    ensures ValidMonth(ym) && MonthIndex(ym) == k
  {
    YearMonth(k / 12, k % 12)
  }

  /** Valid (year, month) pairs are determined by their month index. */
  lemma MonthIndexInjective(a: YearMonth, b: YearMonth)
    requires ValidMonth(a) && ValidMonth(b)
    requires MonthIndex(a) == MonthIndex(b)
    ensures a == b
  {
  }

  /** The "navigate before" button: January goes to December of the
      previous year, any other month to the month before it. */
  function NavigateBefore(ym: YearMonth): (r: YearMonth)
    requires ValidMonth(ym)
    ensures ValidMonth(r)
    ensures MonthIndex(r) == MonthIndex(ym) - 1
  {
    if ym.month == 0 then YearMonth(ym.year - 1, 11)
    else YearMonth(ym.year, ym.month - 1)
  }

  /** The "navigate next" button: December goes to January of the next year,
      any other month to the month after it. */
  function NavigateNext(ym: YearMonth): (r: YearMonth)
    requires ValidMonth(ym)
    ensures ValidMonth(r)
    ensures MonthIndex(r) == MonthIndex(ym) + 1
  {
    if ym.month == 11 then YearMonth(ym.year + 1, 0)
    else YearMonth(ym.year, ym.month + 1)
  }

  // ------------------------------------------------- navigation as written

  /** `Date.prototype.setYear` (section B.2.4.2 of ECMA-262), which the
      navigation buttons and the year select box call: a year from 0 to 99
      is read as a two-digit year of the twentieth century. */
  function SetYear(y: int): int {
    if 0 <= y <= 99 then 1900 + y else y
  }

  /** "navigate before" as written: the year is stepped back with `setYear`. */
  function NavigateBeforeAsWritten(ym: YearMonth): (r: YearMonth)
    requires ValidMonth(ym)
    ensures ValidMonth(r)
  {
    if ym.month == 0 then YearMonth(SetYear(ym.year - 1), 11)
    else YearMonth(ym.year, ym.month - 1)
  }

  /** "navigate next" as written: the year is stepped forward with `setYear`. */
  function NavigateNextAsWritten(ym: YearMonth): (r: YearMonth)
    requires ValidMonth(ym)
    ensures ValidMonth(r)
  {
    if ym.month == 11 then YearMonth(SetYear(ym.year + 1), 0)
    else YearMonth(ym.year, ym.month + 1)
  }

  /** The buttons as written agree with plain month stepping exactly when
      the year they step to lies outside 0..99. */
  lemma NavigateAsWrittenAgrees(ym: YearMonth)
    requires ValidMonth(ym)
    ensures NavigateBeforeAsWritten(ym) == NavigateBefore(ym) <==> !(ym.month == 0 && 1 <= ym.year <= 100)
    ensures NavigateNextAsWritten(ym) == NavigateNext(ym) <==> !(ym.month == 11 && -1 <= ym.year <= 98)
  {
  }

  /** From January of year 100, "navigate before" lands in December 1999
      instead of December 99. */
  lemma NavigateBeforeFromYear100()
    ensures NavigateBeforeAsWritten(YearMonth(100, 0)) == YearMonth(1999, 11)
    ensures NavigateBefore(YearMonth(100, 0)) == YearMonth(99, 11)
  {
  }

  /** Choosing a year in the year select box keeps the month: as written the
      year goes through `setYear`. */
  function SelectYearAsWritten(ym: YearMonth, selectedYear: int): (r: YearMonth)
    ensures r.month == ym.month
  {
    YearMonth(SetYear(selectedYear), ym.month)
  }

  /** Choosing a year in the year select box: the shown year becomes the
      chosen one and the month is kept. */
  function SelectYear(ym: YearMonth, selectedYear: int): (r: YearMonth)
    ensures r.month == ym.month && r.year == selectedYear
  {
    YearMonth(selectedYear, ym.month)
  }

  /** The selection as written shows the chosen year exactly when it lies
      outside 0..99; a default picker opened in year 120 offers year 70 and
      lands in 1970 when it is chosen. */
  lemma SelectYearAsWrittenAgrees(ym: YearMonth, selectedYear: int)
    ensures SelectYearAsWritten(ym, selectedYear) == SelectYear(ym, selectedYear) <==> !(0 <= selectedYear <= 99)
    ensures SelectYearAsWritten(ym, 70).year == 1970
  {
  }

  /** Navigation is the successor and predecessor of the reference numbering. */
  lemma NavigateMatchesMonthIndex(ym: YearMonth)
    requires ValidMonth(ym)
    ensures NavigateNext(ym) == FromMonthIndex(MonthIndex(ym) + 1)
    ensures NavigateBefore(ym) == FromMonthIndex(MonthIndex(ym) - 1)
  {
    MonthIndexInjective(NavigateNext(ym), FromMonthIndex(MonthIndex(ym) + 1));
    MonthIndexInjective(NavigateBefore(ym), FromMonthIndex(MonthIndex(ym) - 1));
  }

  /** next-then-before and before-then-next both return the original pair. */
  lemma NavigateRoundTrip(ym: YearMonth)
    requires ValidMonth(ym)
    ensures NavigateBefore(NavigateNext(ym)) == ym
    ensures NavigateNext(NavigateBefore(ym)) == ym
  {
    MonthIndexInjective(NavigateBefore(NavigateNext(ym)), ym);
    MonthIndexInjective(NavigateNext(NavigateBefore(ym)), ym);
  }

  /** `n` presses of "navigate next". */
  function NextN(ym: YearMonth, n: nat): YearMonth
    requires ValidMonth(ym)
  {
    if n == 0 then ym else NavigateNext(NextN(ym, n - 1))
  }

  lemma {:induction false} NextNAdvancesIndex(ym: YearMonth, n: nat)
    requires ValidMonth(ym)
    ensures ValidMonth(NextN(ym, n))
    ensures MonthIndex(NextN(ym, n)) == MonthIndex(ym) + n
  {
    if n > 0 {
      NextNAdvancesIndex(ym, n - 1);
    }
  }

  /** Twelve presses of "navigate next" reach the same month of the next year. */
  lemma TwelveNextsAdvanceOneYear(ym: YearMonth)
    requires ValidMonth(ym)
    ensures NextN(ym, 12) == YearMonth(ym.year + 1, ym.month)
  {
    NextNAdvancesIndex(ym, 12);
    MonthIndexInjective(NextN(ym, 12), YearMonth(ym.year + 1, ym.month));
  }

  // ---------------------------------------------------------------- day name

  /** The index into the locale's full weekday names shown in the header:
      the element's weekday shifted by the locale's first day of the week,
      with one subtraction of 7 when the sum passes 6. */
  function DayNameIndex(weekDay: int, firstDayOfTheWeek: int): (r: int)
    requires 0 <= weekDay <= 6 && 0 <= firstDayOfTheWeek <= 6
    ensures 0 <= r <= 6
    ensures r == (weekDay + firstDayOfTheWeek) % 7
  {
    var index := weekDay + firstDayOfTheWeek;
    if index > 6 then weekDay + firstDayOfTheWeek - 7 else index
  }

  /** For a fixed locale the shift is a rotation: distinct weekdays get
      distinct names. */
  lemma DayNameIndexIsRotation(w1: int, w2: int, firstDayOfTheWeek: int)
    requires 0 <= w1 <= 6 && 0 <= w2 <= 6 && 0 <= firstDayOfTheWeek <= 6
    ensures DayNameIndex(w1, firstDayOfTheWeek) == DayNameIndex(w2, firstDayOfTheWeek) <==> w1 == w2
  {
  }

  // ---------------------------------------------------------------- selectors

  datatype YearRange = YearRange(minYear: int, maxYear: int)

  /** The constructor without explicit bounds: fifty years either side of
      the initial date's year. */
  function DefaultYearRange(year: int): (r: YearRange)
    ensures r.minYear <= year <= r.maxYear
    ensures year - r.minYear == 50 && r.maxYear - year == 50
  {
    YearRange(year - 50, year + 50)
  }

  datatype SelectOption = SelectOption(value: int, text: string)

  /** The options of a select box, in display order, and the index of the
      selected one if any. */
  datatype Selector = Selector(options: seq<SelectOption>, selected: Option<nat>)

  function DigitChar(d: int): char
    requires 0 <= d <= 9
  {
    "0123456789"[d]
  }

  function NatToDecimal(n: nat): string
    decreases n
  {
    if n < 10 then [DigitChar(n)] else NatToDecimal(n / 10) + [DigitChar(n % 10)]
  }

  /** Java's `i + ""` for an int. */
  function IntToDecimal(i: int): string {
    if i < 0 then "-" + NatToDecimal(-i) else NatToDecimal(i)
  }

  /** The year select box: one option per year from `minYear` to `maxYear`
      inclusive, ascending, and the option equal to `year` selected; nothing
      is selected when `year` lies outside the range, and there are no
      options when the range is empty. */
  method BuildYearSelector(minYear: int, maxYear: int, year: int) returns (s: Selector)
    ensures |s.options| == if minYear <= maxYear then maxYear - minYear + 1 else 0
    ensures forall k :: 0 <= k < |s.options| ==>
              s.options[k] == SelectOption(minYear + k, IntToDecimal(minYear + k))
    ensures s.selected.Some? <==> minYear <= year <= maxYear
    ensures s.selected.Some? ==>
              s.selected.value < |s.options| && s.options[s.selected.value].value == year
  {
    var options: seq<SelectOption> := [];
    var selected: Option<nat> := None;
    var i := minYear;
    while i <= maxYear
      invariant minYear <= i
      invariant if minYear <= maxYear then i <= maxYear + 1 else i == minYear
      invariant |options| == i - minYear
      invariant forall k :: 0 <= k < |options| ==>
                  options[k] == SelectOption(minYear + k, IntToDecimal(minYear + k))
      invariant selected.Some? <==> minYear <= year < i
      invariant selected.Some? ==> selected.value == year - minYear
      decreases maxYear - i
    {
      options := options + [SelectOption(i, IntToDecimal(i))];
      if i == year {
        selected := Some(|options| - 1);
      }
      i := i + 1;
    }
    s := Selector(options, selected);
  }

  /** The month select box: option `k` has value `k` and the k-th short month
      name as text; the option equal to `month` is selected, none when
      `month` is not an index of `monthNames`. */
  method BuildMonthSelector(monthNames: seq<string>, month: int) returns (s: Selector)
    ensures |s.options| == |monthNames|
    ensures forall k :: 0 <= k < |s.options| ==> s.options[k] == SelectOption(k, monthNames[k])
    ensures s.selected.Some? <==> 0 <= month < |monthNames|
    ensures s.selected.Some? ==> s.selected.value == month
  {
    var options: seq<SelectOption> := [];
    var selected: Option<nat> := None;
    var i := 0;
    while i < |monthNames|
      invariant 0 <= i <= |monthNames|
      invariant |options| == i
      invariant forall k :: 0 <= k < i ==> options[k] == SelectOption(k, monthNames[k])
      invariant selected.Some? <==> 0 <= month < i
      invariant selected.Some? ==> selected.value == month
    {
      options := options + [SelectOption(i, monthNames[i])];
      if i == month {
        selected := Some(i);
      }
      i := i + 1;
    }
    s := Selector(options, selected);
  }

  /** A picker built with the default bounds offers 101 years, from fifty
      before to fifty after the initial year, with the initial year selected
      in the middle. */
  method DefaultYearSelector(year: int) returns (s: Selector)
    ensures |s.options| == 101
    ensures s.options[0].value == year - 50 && s.options[100].value == year + 50
    ensures s.selected == Some(50) && s.options[50].value == year
  {
    var range := DefaultYearRange(year);
    s := BuildYearSelector(range.minYear, range.maxYear, year);
  }
}
