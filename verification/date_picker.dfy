/** The year → month → day picker. Three wheel columns display labels of
    three integer lists; the day list is rebuilt from the selected year and
    month whenever the year or month column settles, unless the day column
    is hidden. A notification counter stands for the scroll-change listener,
    which fires once per settle. */
module DatePicking {
  import opened Lists
  import opened Decimal
  import opened Gregorian
  import Wheel

  /** Years shown by default: fifty before the current year and forty-nine
      after it. */
  const DefaultYearCount := 100
  const DefaultMonthCount := 12

  /** `Calendar.DAY_OF_WEEK`, Sunday = 1 through Saturday = 7. */
  type DayOfWeek = d: int | 1 <= d <= 7 witness 1

  /** The localised week-day names, indexed by `DAY_OF_WEEK - 1`. */
  type WeekTable = s: seq<string> | |s| == 7 witness ["", "", "", "", "", "", ""]

  /** The string resources the labels are made of. */
  datatype Resources = Resources(unitYear: string, unitMonth: string, unitDay: string, weekDays: WeekTable)

  /** A date as `java.util.Calendar` decomposes it: `YEAR`, the zero-based
      `MONTH` and the day of the month `DATE`. */
  datatype CalendarDate = CalendarDate(year: int, month0: int, day: int) {
    predicate IsValid() {
      0 <= month0 < 12 && 1 <= day <= DaysInMonth(year, month0 + 1)
    }
  }

  datatype DatePicker = DatePicker(
    res: Resources,
    today: CalendarDate,
    yearList: seq<int>,
    monthList: seq<int>,
    dayList: seq<int>,
    yearColumn: Wheel.Column,
    monthColumn: Wheel.Column,
    dayColumn: Wheel.Column,
    hideDay: bool,
    notifications: nat)

  // ----- labels -----

  function YearLabels(years: seq<int>, unit: string): (r: seq<string>)
    ensures |r| == |years|
    ensures forall i :: 0 <= i < |r| ==> r[i] == IntToString(years[i]) + unit
  {
    seq(|years|, i requires 0 <= i < |years| => IntToString(years[i]) + unit)
  }

  /** Distinct years get distinct labels, so the label a year column shows
      identifies its year. */
  lemma YearLabelsDistinct(years: seq<int>, unit: string)
    ensures forall i, j :: 0 <= i < |years| && 0 <= j < |years| && YearLabels(years, unit)[i] == YearLabels(years, unit)[j]
                           ==> years[i] == years[j]
  {
    var r := YearLabels(years, unit);
    forall i, j | 0 <= i < |years| && 0 <= j < |years| && r[i] == r[j]
      ensures years[i] == years[j]
    {
      var a, b := IntToString(years[i]), IntToString(years[j]);
      assert |a| == |b| by {
        assert |a + unit| == |b + unit|;
      }
      assert a == (a + unit)[..|a|] && b == (b + unit)[..|b|];
      IntToStringInjective(years[i], years[j]);
    }
  }

  /** A zero-padded number followed by `suffix`: the text the month and day
      columns show, which starts with the two digits of the number. */
  function PaddedLabel(n: int, suffix: string): (r: string)
    ensures 0 <= n < 100 ==> StartsWithTwoDigits(r, n)
  {
    var r := TwoDigits(n) + suffix;
    assert 0 <= n < 100 ==> r[..2] == TwoDigits(n);
    r
  }

  function MonthLabels(months: seq<int>, unit: string): (r: seq<string>)
    ensures |r| == |months|
    ensures forall i :: 0 <= i < |r| ==> r[i] == PaddedLabel(months[i], unit)
    ensures forall i :: 0 <= i < |r| && 0 <= months[i] < 100 ==> StartsWithTwoDigits(r[i], months[i])
  {
    seq(|months|, i requires 0 <= i < |months| => PaddedLabel(months[i], unit))
  }

  /** Zero-padded day number, day unit, a tab and the week-day name of that
      date as the calendar collaborator reports it. */
  function DayLabel(year: int, month: int, day: int, res: Resources, dayOfWeek: (int, int, int) -> DayOfWeek): (r: string)
    ensures 0 <= day < 100 ==> StartsWithTwoDigits(r, day)
  {
    PaddedLabel(day, res.unitDay + "\t" + res.weekDays[dayOfWeek(year, month - 1, day) - 1])
  }

  function DayLabels(year: int, month: int, days: seq<int>, res: Resources, dayOfWeek: (int, int, int) -> DayOfWeek): (r: seq<string>)
    ensures |r| == |days|
    ensures forall i :: 0 <= i < |r| ==> r[i] == DayLabel(year, month, days[i], res, dayOfWeek)
    ensures forall i :: 0 <= i < |r| && 0 <= days[i] < 100 ==> StartsWithTwoDigits(r[i], days[i])
  {
    seq(|days|, i requires 0 <= i < |days| => DayLabel(year, month, days[i], res, dayOfWeek))
  }

  /** A label that starts with the two digits of `n`. */
  predicate StartsWithTwoDigits(text: string, n: int) {
    |text| >= 2 && IsDigits(text[..2]) && DigitsValue(text[..2]) == n
  }

  // ----- state predicates -----

  /** What every operation keeps: the year list is a run of consecutive
      years, the month list is 1..12, the day list is 1..n, and each column
      shows one label per list element. */
  predicate Wf(s: DatePicker) {
    IsRun(s.yearList) && s.yearColumn.data == YearLabels(s.yearList, s.res.unitYear)
    && s.monthList == Consecutive(1, DefaultMonthCount)
    && s.monthColumn.data == MonthLabels(s.monthList, s.res.unitMonth)
    && s.dayList == Consecutive(1, |s.dayList|) && |s.dayColumn.data| == |s.dayList|
  }

  /** The year and month columns point into their lists. */
  predicate UpstreamInRange(s: DatePicker) {
    0 <= s.yearColumn.selected < |s.yearList| && 0 <= s.monthColumn.selected < |s.monthList|
  }

  /** With the day column shown, it holds exactly the days of the selected
      year and month. */
  predicate DaysMatchSelection(s: DatePicker) {
    !s.hideDay ==>
      UpstreamInRange(s) &&
      |s.dayList| == DaysInMonth(s.yearList[s.yearColumn.selected], s.monthList[s.monthColumn.selected])
  }

  /** Everything except the day list and the day column is the same. */
  predicate SameUpstream(s: DatePicker, t: DatePicker) {
    t.res == s.res && t.today == s.today && t.yearList == s.yearList && t.monthList == s.monthList
    && t.yearColumn == s.yearColumn && t.monthColumn == s.monthColumn
    && t.hideDay == s.hideDay && t.notifications == s.notifications
  }

  // ----- getters -----

  function GetYear(s: DatePicker): (r: Result<int>)
    ensures r.Ok? <==> 0 <= s.yearColumn.selected < |s.yearList|
    ensures r.Ok? ==> r.value == s.yearList[s.yearColumn.selected]
  {
    At(s.yearList, s.yearColumn.selected)
  }

  function GetMonth(s: DatePicker): (r: Result<int>)
    ensures r.Ok? <==> 0 <= s.monthColumn.selected < |s.monthList|
    ensures r.Ok? ==> r.value == s.monthList[s.monthColumn.selected]
  {
    At(s.monthList, s.monthColumn.selected)
  }

  /** The selected day, or the fixed day 1 while the day column is hidden. */
  function GetDay(s: DatePicker): (r: Result<int>)
    ensures s.hideDay ==> r == Ok(1)
    ensures !s.hideDay ==> (r.Ok? <==> 0 <= s.dayColumn.selected < |s.dayList|)
    ensures !s.hideDay && r.Ok? ==> r.value == s.dayList[s.dayColumn.selected]
  {
    if s.hideDay then Ok(1) else At(s.dayList, s.dayColumn.selected)
  }

  // ----- operations -----

  /** Rebuild the day list for the selected year and month: fails only when
      one of those two selections lies outside its list; otherwise the day
      list becomes 1..DaysInMonth with one label per day, and nothing
      upstream changes. On initialisation the day column is moved to today's
      day; later the day selection is left where it was. */
  function ComputeDayList(s: DatePicker, isInit: bool, dayOfWeek: (int, int, int) -> DayOfWeek): (r: Result<DatePicker>)
    ensures r.Ok? <==> UpstreamInRange(s)
    ensures r.Ok? ==> SameUpstream(s, r.value)
    ensures r.Ok? ==> |r.value.dayList| == DaysInMonth(s.yearList[s.yearColumn.selected], s.monthList[s.monthColumn.selected])
    ensures r.Ok? ==> forall i :: 0 <= i < |r.value.dayList| ==> r.value.dayList[i] == i + 1
    ensures r.Ok? ==> |r.value.dayColumn.data| == |r.value.dayList|
    ensures r.Ok? ==> forall i :: 0 <= i < |r.value.dayList| ==> StartsWithTwoDigits(r.value.dayColumn.data[i], i + 1)
    ensures r.Ok? ==> r.value.dayColumn.selected == if isInit then s.today.day - 1 else s.dayColumn.selected
    ensures r.Ok? && Wf(s) ==> Wf(r.value)
  {
    var year :- At(s.yearList, s.yearColumn.selected);
    var month :- At(s.monthList, s.monthColumn.selected);
    var days := Consecutive(1, DaysInMonth(year, month));
    var column := Wheel.SetData(s.dayColumn, DayLabels(year, month, days, s.res, dayOfWeek));
    Ok(s.(dayList := days,
          dayColumn := if isInit then Wheel.SetSelectedItemPosition(column, s.today.day - 1) else column))
  }

  /** The picker as the constructor leaves it for `today`: one hundred years
      around the current year with the current year selected, months 1..12
      with zero-padded labels and the current month selected, and the days of
      the current month with today selected. The day column is always built
      here, because the hide-day flag can only be set after construction. */
  function ObtainDateData(today: CalendarDate, res: Resources, dayOfWeek: (int, int, int) -> DayOfWeek): (r: DatePicker)
    requires today.IsValid()
    ensures r.res == res && r.today == today
    ensures Wf(r) && DaysMatchSelection(r)
    ensures |r.yearList| == DefaultYearCount
    ensures r.yearList[0] == today.year - 50 && r.yearList[DefaultYearCount - 1] == today.year + 49
    ensures forall i :: 0 <= i < |r.monthList| ==> StartsWithTwoDigits(r.monthColumn.data[i], i + 1)
    ensures forall i :: 0 <= i < |r.dayList| ==> StartsWithTwoDigits(r.dayColumn.data[i], i + 1)
    ensures GetYear(r) == Ok(today.year)
    ensures GetMonth(r) == Ok(today.month0 + 1)
    ensures GetDay(r) == Ok(today.day)
    ensures !r.hideDay && r.notifications == 0
  {
    var years := Consecutive(today.year - DefaultYearCount / 2, DefaultYearCount);
    var months := Consecutive(1, DefaultMonthCount);
    var yearColumn := Wheel.SetData(Wheel.Fresh, YearLabels(years, res.unitYear));
    var monthColumn := Wheel.SetData(Wheel.Fresh, MonthLabels(months, res.unitMonth));
    var s := DatePicker(res, today, years, months, [],
                        Wheel.SetSelectedItemPosition(yearColumn, DefaultYearCount / 2),
                        Wheel.SetSelectedItemPosition(monthColumn, today.month0),
                        Wheel.Fresh, false, 0);
    ComputeDayList(s, true, dayOfWeek).value
  }

  /** The listener shared by the year and month columns: rebuild the day
      list unless the day column is hidden, then notify once. */
  function AfterUpstreamSettled(s: DatePicker, dayOfWeek: (int, int, int) -> DayOfWeek): (r: Result<DatePicker>)
    ensures r.Ok? <==> s.hideDay || UpstreamInRange(s)
    ensures r.Ok? ==> r.value.notifications == s.notifications + 1
    ensures r.Ok? ==> SameUpstream(s, r.value.(notifications := s.notifications))
    ensures r.Ok? ==> r.value.dayColumn.selected == s.dayColumn.selected
    ensures r.Ok? && !s.hideDay ==>
      |r.value.dayList| == DaysInMonth(s.yearList[s.yearColumn.selected], s.monthList[s.monthColumn.selected])
    ensures s.hideDay ==> r == Ok(s.(notifications := s.notifications + 1))
    ensures r.Ok? ==> DaysMatchSelection(r.value)
    ensures r.Ok? && Wf(s) ==> Wf(r.value)
  {
    var recomputed :- if s.hideDay then Ok(s) else ComputeDayList(s, false, dayOfWeek);
    Ok(recomputed.(notifications := recomputed.notifications + 1))
  }

  /** The year column settled at `position`. */
  function OnYearSettled(s: DatePicker, position: int, dayOfWeek: (int, int, int) -> DayOfWeek): (r: Result<DatePicker>)
    ensures r.Ok? <==> s.hideDay || (0 <= position < |s.yearList| && 0 <= s.monthColumn.selected < |s.monthList|)
    ensures r.Ok? ==> r.value.yearColumn == Wheel.Column(s.yearColumn.data, position) && r.value.monthColumn == s.monthColumn
    ensures r.Ok? ==> r.value.yearList == s.yearList && r.value.monthList == s.monthList
    ensures r.Ok? ==> r.value.res == s.res && r.value.today == s.today && r.value.hideDay == s.hideDay
    ensures r.Ok? ==> r.value.notifications == s.notifications + 1
    ensures r.Ok? && !s.hideDay ==>
      |r.value.dayList| == DaysInMonth(s.yearList[position], s.monthList[s.monthColumn.selected])
    ensures r.Ok? ==> r.value.dayColumn.selected == s.dayColumn.selected
    ensures r.Ok? ==> DaysMatchSelection(r.value)
    ensures s.hideDay ==> r.Ok? && r.value.dayList == s.dayList && r.value.dayColumn == s.dayColumn
    ensures r.Ok? && Wf(s) ==> Wf(r.value)
  {
    AfterUpstreamSettled(s.(yearColumn := Wheel.SetSelectedItemPosition(s.yearColumn, position)), dayOfWeek)
  }

  /** The month column settled at `position`. */
  function OnMonthSettled(s: DatePicker, position: int, dayOfWeek: (int, int, int) -> DayOfWeek): (r: Result<DatePicker>)
    ensures r.Ok? <==> s.hideDay || (0 <= s.yearColumn.selected < |s.yearList| && 0 <= position < |s.monthList|)
    ensures r.Ok? ==> r.value.monthColumn == Wheel.Column(s.monthColumn.data, position) && r.value.yearColumn == s.yearColumn
    ensures r.Ok? ==> r.value.yearList == s.yearList && r.value.monthList == s.monthList
    ensures r.Ok? ==> r.value.res == s.res && r.value.today == s.today && r.value.hideDay == s.hideDay
    ensures r.Ok? ==> r.value.notifications == s.notifications + 1
    ensures r.Ok? && !s.hideDay ==>
      |r.value.dayList| == DaysInMonth(s.yearList[s.yearColumn.selected], s.monthList[position])
    ensures r.Ok? ==> r.value.dayColumn.selected == s.dayColumn.selected
    ensures r.Ok? ==> DaysMatchSelection(r.value)
    ensures s.hideDay ==> r.Ok? && r.value.dayList == s.dayList && r.value.dayColumn == s.dayColumn
    ensures r.Ok? && Wf(s) ==> Wf(r.value)
  {
    AfterUpstreamSettled(s.(monthColumn := Wheel.SetSelectedItemPosition(s.monthColumn, position)), dayOfWeek)
  }

  /** The day column settled at `position`: nothing is rebuilt, the
      listener only notifies. */
  function OnDaySettled(s: DatePicker, position: int): (r: DatePicker)
    ensures r.dayColumn.selected == position && r.dayColumn.data == s.dayColumn.data
    ensures r.dayList == s.dayList && SameUpstream(s, r.(notifications := s.notifications))
    ensures r.notifications == s.notifications + 1
    ensures Wf(s) ==> Wf(r)
  {
    s.(dayColumn := Wheel.SetSelectedItemPosition(s.dayColumn, position), notifications := s.notifications + 1)
  }

  /** `setYearRange(minYear, maxYear)`: the year list becomes minYear..maxYear
      (empty when maxYear < minYear) and the year column is pointed at the
      current year's offset from minYear, without clamping, so the current
      year is selected exactly when it lies in the range. Months, days and
      the day column are not touched, and nothing is notified. */
  function SetYearRange(s: DatePicker, minYear: int, maxYear: int): (r: DatePicker)
    ensures |r.yearList| == if minYear <= maxYear then maxYear - minYear + 1 else 0
    ensures forall i :: 0 <= i < |r.yearList| ==> r.yearList[i] == minYear + i
    ensures r.yearColumn.selected == s.today.year - minYear
    ensures GetYear(r) == Ok(s.today.year) <==> minYear <= s.today.year <= maxYear
    ensures GetYear(r).Err? <==> !(minYear <= s.today.year <= maxYear)
    ensures r.monthList == s.monthList && r.monthColumn == s.monthColumn
    ensures r.dayList == s.dayList && r.dayColumn == s.dayColumn
    ensures r.hideDay == s.hideDay && r.notifications == s.notifications
    ensures r.res == s.res && r.today == s.today
    ensures Wf(s) ==> Wf(r)
  {
    var years := Consecutive(minYear, maxYear - minYear + 1);
    s.(yearList := years,
       yearColumn := Wheel.SetSelectedItemPosition(
         Wheel.SetData(s.yearColumn, YearLabels(years, s.res.unitYear)), s.today.year - minYear))
  }

  /** `setSelectPositionByDate(date)`: the year column goes to the date's
      offset from the first listed year, the month column to its zero-based
      month and, when shown, the day column to day - 1. Fails only when the
      year list is empty. No list is rebuilt and nothing is notified. */
  function SetSelectPositionByDate(s: DatePicker, date: CalendarDate): (r: Result<DatePicker>)
    ensures r.Ok? <==> |s.yearList| > 0
    ensures r.Ok? ==> r.value.yearColumn == Wheel.Column(s.yearColumn.data, date.year - s.yearList[0])
    ensures r.Ok? ==> r.value.monthColumn == Wheel.Column(s.monthColumn.data, date.month0)
    ensures r.Ok? ==> r.value.dayColumn == if s.hideDay then s.dayColumn else Wheel.Column(s.dayColumn.data, date.day - 1)
    ensures r.Ok? ==> r.value.yearList == s.yearList && r.value.monthList == s.monthList && r.value.dayList == s.dayList
    ensures r.Ok? ==> r.value.hideDay == s.hideDay && r.value.notifications == s.notifications
    ensures r.Ok? ==> r.value.res == s.res && r.value.today == s.today
    ensures r.Ok? && Wf(s) ==> Wf(r.value)
  {
    var first :- At(s.yearList, 0);
    var moved := s.(yearColumn := Wheel.SetSelectedItemPosition(s.yearColumn, date.year - first),
                    monthColumn := Wheel.SetSelectedItemPosition(s.monthColumn, date.month0));
    Ok(if s.hideDay then moved
       else moved.(dayColumn := Wheel.SetSelectedItemPosition(s.dayColumn, date.day - 1)))
  }

  /** `setHideDay`: only the flag changes; while set, the day reads as 1. */
  function SetHideDay(s: DatePicker, hideDay: bool): (r: DatePicker)
    ensures r.hideDay == hideDay && r.dayList == s.dayList && r.dayColumn == s.dayColumn
    ensures SameUpstream(s, r.(hideDay := s.hideDay))
    ensures hideDay ==> GetDay(r) == Ok(1)
    ensures !hideDay ==> GetDay(r) == At(s.dayList, s.dayColumn.selected)
    ensures Wf(s) ==> Wf(r)
  {
    s.(hideDay := hideDay)
  }

  // ----- properties relating several operations -----

  /** Selecting a date and reading it back: the month always comes back; the
      year comes back exactly when it lies in the year list; the day comes
      back exactly when it lies in the current day list, or reads as 1 while
      the day column is hidden. */
  lemma SelectByDateRoundTrip(s: DatePicker, date: CalendarDate)
    requires Wf(s) && |s.yearList| > 0 && date.IsValid()
    ensures SetSelectPositionByDate(s, date).Ok?
    ensures var t := SetSelectPositionByDate(s, date).value;
      (GetYear(t) == Ok(date.year) <==> s.yearList[0] <= date.year <= s.yearList[|s.yearList| - 1])
      && GetMonth(t) == Ok(date.month0 + 1)
      && (s.hideDay ==> GetDay(t) == Ok(1))
      && (!s.hideDay ==> (GetDay(t) == Ok(date.day) <==> date.day <= |s.dayList|))
  {
    var t := SetSelectPositionByDate(s, date).value;
    assert t.yearList == s.yearList && t.yearColumn.selected == date.year - s.yearList[0];
    assert t.monthList == s.monthList && t.monthColumn.selected == date.month0;
    assert t.dayList == s.dayList && t.hideDay == s.hideDay;
    RunIndex(s.yearList, date.year);
    assert t.monthList[date.month0] == date.month0 + 1;
    if !s.hideDay {
      assert t.dayColumn.selected == date.day - 1;
      if date.day <= |s.dayList| {
        assert t.dayList[date.day - 1] == date.day;
      }
    }
  }

  /** Selecting a date that the initial picker lists and whose day fits the
      current month's day list reads back as exactly that date. */
  lemma InitialSelectByDate(today: CalendarDate, res: Resources, dayOfWeek: (int, int, int) -> DayOfWeek, date: CalendarDate)
    requires today.IsValid() && date.IsValid()
    requires today.year - 50 <= date.year <= today.year + 49
    requires date.day <= DaysInMonth(today.year, today.month0 + 1)
    ensures var t := SetSelectPositionByDate(ObtainDateData(today, res, dayOfWeek), date);
      t.Ok? && GetYear(t.value) == Ok(date.year) && GetMonth(t.value) == Ok(date.month0 + 1)
      && GetDay(t.value) == Ok(date.day)
  {
    SelectByDateRoundTrip(ObtainDateData(today, res, dayOfWeek), date);
  }

  /** Settling the year or the month again at the position it already has
      rebuilds the very day list already shown and keeps the day selection:
      only the notification count moves. */
  lemma ResettleKeepsDays(s: DatePicker, dayOfWeek: (int, int, int) -> DayOfWeek)
    requires Wf(s) && DaysMatchSelection(s)
    ensures var r := OnYearSettled(s, s.yearColumn.selected, dayOfWeek);
      r.Ok? && r.value.dayList == s.dayList && r.value.dayColumn.selected == s.dayColumn.selected
      && r.value.yearColumn == s.yearColumn && r.value.notifications == s.notifications + 1
    ensures var r := OnMonthSettled(s, s.monthColumn.selected, dayOfWeek);
      r.Ok? && r.value.dayList == s.dayList && r.value.dayColumn.selected == s.dayColumn.selected
      && r.value.monthColumn == s.monthColumn && r.value.notifications == s.notifications + 1
  {
  }

  /** With the day labels those of the selected year and month, settling
      the year or the month at the position it already has is no change at
      all beyond the one notification. */
  lemma ResettleIsNoChange(s: DatePicker, dayOfWeek: (int, int, int) -> DayOfWeek)
    requires Wf(s) && DaysMatchSelection(s)
    requires !s.hideDay ==>
      s.dayColumn.data == DayLabels(s.yearList[s.yearColumn.selected], s.monthList[s.monthColumn.selected], s.dayList, s.res, dayOfWeek)
    ensures OnYearSettled(s, s.yearColumn.selected, dayOfWeek) == Ok(s.(notifications := s.notifications + 1))
    ensures OnMonthSettled(s, s.monthColumn.selected, dayOfWeek) == Ok(s.(notifications := s.notifications + 1))
  {
  }

  /** The day index is never clamped on a month settle: when the newly
      selected month has fewer days than the index allows, the index stays
      past the end of the rebuilt day list and the day can no longer be
      read. */
  lemma DayIndexNotClamped(s: DatePicker, position: int, dayOfWeek: (int, int, int) -> DayOfWeek)
    requires !s.hideDay && UpstreamInRange(s) && 0 <= position < |s.monthList|
    requires s.dayColumn.selected >= DaysInMonth(s.yearList[s.yearColumn.selected], s.monthList[position])
    ensures OnMonthSettled(s, position, dayOfWeek).Ok?
    ensures GetDay(OnMonthSettled(s, position, dayOfWeek).value).Err?
  {
  }

  /** A picker built on March 31 that is moved to April keeps day index 30
      in a 30-day list, so `getDay` fails. */
  lemma MarchThirtyFirstToApril(year: int, res: Resources, dayOfWeek: (int, int, int) -> DayOfWeek)
    ensures var s := ObtainDateData(CalendarDate(year, 2, 31), res, dayOfWeek);
      var r := OnMonthSettled(s, 3, dayOfWeek);
      r.Ok? && GetMonth(r.value) == Ok(4) && GetDay(r.value).Err?
  {
    var s := ObtainDateData(CalendarDate(year, 2, 31), res, dayOfWeek);
    assert s.dayColumn.selected == 30;
    DayIndexNotClamped(s, 3, dayOfWeek);
  }

  /** The same on a year settle: when the newly selected year gives the
      selected month fewer days than the index allows (February 29 moved to
      a common year), the day can no longer be read. */
  lemma YearDayIndexNotClamped(s: DatePicker, position: int, dayOfWeek: (int, int, int) -> DayOfWeek)
    requires !s.hideDay && UpstreamInRange(s) && 0 <= position < |s.yearList|
    requires s.dayColumn.selected >= DaysInMonth(s.yearList[position], s.monthList[s.monthColumn.selected])
    ensures OnYearSettled(s, position, dayOfWeek).Ok?
    ensures GetDay(OnYearSettled(s, position, dayOfWeek).value).Err?
  {
  }

  /** A picker built on February 29, 2024 that is moved to 2025 keeps day
      index 28 in a 28-day list, so `getDay` fails. */
  lemma LeapDayToCommonYear(res: Resources, dayOfWeek: (int, int, int) -> DayOfWeek)
    ensures var s := ObtainDateData(CalendarDate(2024, 1, 29), res, dayOfWeek);
      var r := OnYearSettled(s, DefaultYearCount / 2 + 1, dayOfWeek);
      r.Ok? && GetYear(r.value) == Ok(2025) && GetDay(r.value).Err?
  {
    var s := ObtainDateData(CalendarDate(2024, 1, 29), res, dayOfWeek);
    assert s.dayColumn.selected == 28;
    assert s.yearList[DefaultYearCount / 2 + 1] == 2025;
    YearDayIndexNotClamped(s, DefaultYearCount / 2 + 1, dayOfWeek);
  }
}
