# Wheel pickers: cascading selection in Dafny

This project models the selection logic of two Android wheel pickers and proves
properties about it. Each picker is a row of rotating columns, and each column
shows labels for a list. Moving an upstream column rebuilds the lists below it.

- The **date picker** (`WheelDatePicker`) shows a year column, a month column and
  a day column. The day list is derived from the selected year and month with
  the Gregorian leap-year rule and the month-length table. A date can be mapped
  back onto column positions. When the day column is hidden, the day reads as 1.
- The **area picker** (`WheelAreaPicker`) holds province → city → area data. A
  province settle rebuilds the city list and the area column and resets both to
  index 0. A city settle rebuilds only the area column.
- A **province** (`Province`) is labelled by its name cut to six characters.

Modules, one per component:

| file | module | models |
|---|---|---|
| `lists.dfy` | `Lists` | `List.get` as a lookup that fails with `IndexOutOfBounds`; the `for (i…) add(first + i)` list builders |
| `decimal.dfy` | `Decimal` | `Integer.toString` rendering in labels; the two-digit zero padding of months and days |
| `gregorian.dfy` | `Gregorian` | leap years and the day-count `switch` |
| `wheel.dfy` | `Wheel` | the wheel widget as a record `{data, selected}` with `setData` and `setSelectedItemPosition` |
| `regions.dfy` | `Regions` | `Province`, `City`, `Area`; `getShortName` and the accessors |
| `date_picker.dfy` | `DatePicking` | the date picker's state, settle listeners, getters and setters |
| `area_picker.dfy` | `AreaPicking` | the area picker's state, cascade, settle listeners and getters |

Both pickers are immutable datatypes, and every Java method is a function from
the old state to the new one. `List.get` throws on a bad index. Each operation
that can hit such an index returns a `Result`, and `Err(IndexOutOfBounds(i, n))`
stands for the exception. The date picker's scroll-change listener becomes a
`notifications` counter, which goes up by one for each listener call. The
settle callbacks are the `On…Settled` functions. Each takes the position the
column settled at, and the column's selection moves there first.

Inputs that came from outside the Java class are parameters:
- today's date, from `Calendar.getInstance()`;
- the string resources (year, month and day units, and the 7-entry week-day table);
- the week-day oracle `dayOfWeek(year, month0, day) ∈ 1..7`, from `Calendar.DAY_OF_WEEK`;
- the province list, which the source parses from an asset;
- the city and area label functions.

Behaviour of the code that the model keeps as written:
- **The day index is not clamped.** `computeDayList(false)` keeps the day
  index when the day list gets shorter; no clamping happens in this class. Any
  clamping would happen inside the wheel widget, which is not part of this
  model, so a stale day index makes `GetDay` fail.
- **`setYearRange` validates nothing.**
  - `max < min` gives an empty year list;
  - the selection is set to `curYear - min` without clamping;
  - the day list is not recomputed.
- **`setSelectPositionByDate` does not rebuild the day list.** It only moves
  the three indices, so the day list stays that of the previously selected
  month. For example, with February shown, selecting March 31 leaves index 30
  in a 28- or 29-day list, and `GetDay` then fails in the model.
- **A city settle has no guard.** An out-of-range city index makes the lookup
  throw.
- **The area column has no listener.** The area picker registers no listener
  on the area column and has no change listener at all.
- **`setHideDay` only stores a flag.** The constructor runs while the flag is
  still false, so the day column, its list and its listener are always built.
  The flag only changes `getDay`, the two upstream listeners, and
  `setSelectPositionByDate`, which leaves the day column alone while it is set.

## Model

| member | source | states |
|---|---|---|
| Gregorian.DaysInMonth | wheelpicker/src/main/java/com/jx/wheelpicker/widget/WheelDatePicker.java:172-193 | 29 exactly for February of a leap year, 28 for February otherwise, 31 exactly for months 1,3,5,7,8,10,12, 30 for every other month number (the `default` arm); always within 28..31 |
| Gregorian.YearLength | wheelpicker/src/main/java/com/jx/wheelpicker/widget/WheelDatePicker.java:172-193 | the twelve month lengths add up to 366 in leap years and 365 otherwise, tying the table to the leap rule |
| Gregorian.KnuckleRule | wheelpicker/src/main/java/com/jx/wheelpicker/widget/WheelDatePicker.java:181-191 | for every month except February the table agrees with the independent formula 30 + (m + m/8) mod 2 |
| Gregorian.LeapYearPeriod | wheelpicker/src/main/java/com/jx/wheelpicker/widget/WheelDatePicker.java:174 | the leap rule repeats every 400 years |
| Gregorian.LeapYearExamples | wheelpicker/src/main/java/com/jx/wheelpicker/widget/WheelDatePicker.java:174-179 | 2024 and 2000 are leap years, 1900 and 2023 are not; February has 29/28/29/28 days in 2024/2023/2000/1900, April 2024 has 30 and January 2024 has 31 |
| Decimal.NatToString | wheelpicker/src/main/java/com/jx/wheelpicker/widget/WheelDatePicker.java:149 | the rendering of a year is a non-empty digit string with no leading zero except for 0, one digit exactly below 10 |
| Decimal.IntToString | wheelpicker/src/main/java/com/jx/wheelpicker/widget/WheelDatePicker.java:149 | non-negative numbers render as digits only, negative ones as '-' followed by digits |
| Decimal.NatToStringRoundTrip | wheelpicker/src/main/java/com/jx/wheelpicker/widget/WheelDatePicker.java:149 | reading the rendered digits back yields the rendered number |
| Decimal.IntToStringInjective | wheelpicker/src/main/java/com/jx/wheelpicker/widget/WheelDatePicker.java:148-150 | distinct years get distinct label texts |
| Decimal.TwoDigits | wheelpicker/src/main/java/com/jx/wheelpicker/widget/WheelDatePicker.java:154 | for every number in 0..99 the padded text is exactly two digits denoting that number; from 10 on it is the plain rendering |
| DatePicking.DayLabels | wheelpicker/src/main/java/com/jx/wheelpicker/widget/WheelDatePicker.java:199-205 | one label per day, in order, each starting with the two digits of its day number; the label is the padded day, the day unit, a tab and the week-day table entry at DAY_OF_WEEK - 1 |
| DatePicking.YearLabelsDistinct | wheelpicker/src/main/java/com/jx/wheelpicker/widget/WheelDatePicker.java:148-150 | distinct years in the list get distinct labels, so the label the year column shows identifies its year |
| DatePicking.PaddedLabel | wheelpicker/src/main/java/com/jx/wheelpicker/widget/WheelDatePicker.java:154-155 | the zero-padded number followed by its suffix starts with the two digits of the number, for every number in 0..99 |
| DatePicking.MonthLabels | wheelpicker/src/main/java/com/jx/wheelpicker/widget/WheelDatePicker.java:153-156 | one label per month, in order, each starting with the two digits of its month number |
| DatePicking.GetYear | wheelpicker/src/main/java/com/jx/wheelpicker/widget/WheelDatePicker.java:250-253 | succeeds exactly when the year column's index is inside the year list, returning the year there |
| DatePicking.GetMonth | wheelpicker/src/main/java/com/jx/wheelpicker/widget/WheelDatePicker.java:255-258 | succeeds exactly when the month column's index is inside the month list, returning the month there |
| DatePicking.GetDay | wheelpicker/src/main/java/com/jx/wheelpicker/widget/WheelDatePicker.java:260-267 | with the day column hidden it is always 1; otherwise it succeeds exactly when the day index is inside the day list, returning that day |
| DatePicking.ComputeDayList | wheelpicker/src/main/java/com/jx/wheelpicker/widget/WheelDatePicker.java:165-211 | fails exactly when the year or month index is outside its list; otherwise the day list is exactly 1..DaysInMonth(selected year, selected month), with as many labels, label i starting with the two digits of day i+1, year and month lists/columns untouched, and the day index moved to today's day - 1 on initialisation only |
| DatePicking.ObtainDateData | wheelpicker/src/main/java/com/jx/wheelpicker/widget/WheelDatePicker.java:133-163 | keeps the given resources and today's date; 100 consecutive years from current-50 to current+49; months 1..12 and days 1..n, each label starting with the two digits of its number; getYear, getMonth, getDay return today's year, month and day; day list matches the selected month; day shown, no notification yet |
| DatePicking.AfterUpstreamSettled | wheelpicker/src/main/java/com/jx/wheelpicker/widget/WheelDatePicker.java:217-222 | exactly one notification; resources, today, year and month lists and columns and the hide-day flag are kept; with the day hidden nothing else changes; otherwise the day list has DaysInMonth of the selected year and month days, failing exactly when an upstream index is out of range, and the day index is kept |
| DatePicking.OnYearSettled | wheelpicker/src/main/java/com/jx/wheelpicker/widget/WheelDatePicker.java:215-223 | only the year column's index moves to the position (labels kept); year and month lists, resources, today and flag kept; succeeds exactly when the day is hidden or both upstream indices are in range; shown day: the day list has DaysInMonth(yearList[position], selected month) days and the day index is kept, unclamped; hidden day: day list and column untouched; one notification |
| DatePicking.OnMonthSettled | wheelpicker/src/main/java/com/jx/wheelpicker/widget/WheelDatePicker.java:225-233 | only the month column's index moves to the position (labels kept); year and month lists, resources, today and flag kept; same success condition as the year settle; shown day: the day list has DaysInMonth(selected year, monthList[position]) days and the day index is kept, unclamped; hidden day: day list and column untouched; one notification |
| DatePicking.OnDaySettled | wheelpicker/src/main/java/com/jx/wheelpicker/widget/WheelDatePicker.java:234-241 | only the day index moves and one notification is fired; no list or other column changes |
| DatePicking.SetYearRange | wheelpicker/src/main/java/com/jx/wheelpicker/widget/WheelDatePicker.java:282-295 | the year list is exactly min..max (length max-min+1, empty when max < min); the index is curYear - min; getYear returns the current year exactly when it lies in the range and fails otherwise; months, days, resources, today and notifications untouched |
| DatePicking.SetSelectPositionByDate | wheelpicker/src/main/java/com/jx/wheelpicker/widget/WheelDatePicker.java:323-335 | fails exactly when the year list is empty; year index = year - first listed year, month index = zero-based month, day index = day - 1 only when the day is shown; no list rebuilt, resources and today kept, nothing notified |
| DatePicking.SetHideDay | wheelpicker/src/main/java/com/jx/wheelpicker/widget/WheelDatePicker.java:357-359 | only the flag changes; with it set, getDay returns 1 |
| DatePicking.SelectByDateRoundTrip | wheelpicker/src/main/java/com/jx/wheelpicker/widget/WheelDatePicker.java:324-335 | after selecting a valid date: the month reads back always; the year reads back exactly when it lies within the year list; the day reads back exactly when it fits the current day list, or reads 1 while hidden |
| DatePicking.InitialSelectByDate | wheelpicker/src/main/java/com/jx/wheelpicker/widget/WheelDatePicker.java:140-167 | on a freshly built picker, any valid date within the hundred listed years whose day fits the current month reads back as exactly that year, month and day |
| DatePicking.ResettleKeepsDays | wheelpicker/src/main/java/com/jx/wheelpicker/widget/WheelDatePicker.java:215-233 | settling the year or month at its current position keeps the day list, the day index and the settled column, and adds one notification; the day labels are rebuilt |
| DatePicking.ResettleIsNoChange | wheelpicker/src/main/java/com/jx/wheelpicker/widget/WheelDatePicker.java:194-233 | when the day labels are those of the selected year and month, settling the year or month at its current position yields the same picker with one more notification |
| DatePicking.DayIndexNotClamped | wheelpicker/src/main/java/com/jx/wheelpicker/widget/WheelDatePicker.java:205-210 | on a month settle, when the day index is at least the length of the newly selected month, the settle succeeds and getDay then fails: the index is not clamped |
| DatePicking.YearDayIndexNotClamped | wheelpicker/src/main/java/com/jx/wheelpicker/widget/WheelDatePicker.java:205-223 | on a year settle, when the day index is at least the selected month's length in the newly selected year, the settle succeeds and getDay then fails |
| DatePicking.LeapDayToCommonYear | wheelpicker/src/main/java/com/jx/wheelpicker/widget/WheelDatePicker.java:205-223 | a picker built on February 29, 2024 and moved to 2025 reads year 2025 and fails to read a day |
| DatePicking.MarchThirtyFirstToApril | wheelpicker/src/main/java/com/jx/wheelpicker/widget/WheelDatePicker.java:205-233 | a picker built on March 31 and moved to April reads month 4 and fails to read a day |
| Regions.ShortName | wheelpicker/src/main/java/com/jx/wheelpicker/widget/model/Province.java:20-22 | the label is a prefix of the name, of length min(length, 6) |
| Regions.ShortNameIdempotent | wheelpicker/src/main/java/com/jx/wheelpicker/widget/model/Province.java:21 | a name of at most six characters is its own label; shortening a label again returns it unchanged |
| Regions.ShortNameSharedPrefix | wheelpicker/src/main/java/com/jx/wheelpicker/widget/model/Province.java:21 | long names that agree on their first six characters share one label |
| Regions.GetName | wheelpicker/src/main/java/com/jx/wheelpicker/widget/model/Province.java:16-18 | the returned name is the one name whose setting leaves the province unchanged |
| Regions.GetCity | wheelpicker/src/main/java/com/jx/wheelpicker/widget/model/Province.java:28-30 | the returned list is the one city list whose setting leaves the province unchanged |
| Regions.SetName | wheelpicker/src/main/java/com/jx/wheelpicker/widget/model/Province.java:24-26 | getName afterwards returns the new name; the cities and code are unchanged |
| Regions.SetCity | wheelpicker/src/main/java/com/jx/wheelpicker/widget/model/Province.java:32-34 | getCity afterwards returns the new city list; the name and code are unchanged |
| Regions.SettersIndependent | wheelpicker/src/main/java/com/jx/wheelpicker/widget/model/Province.java:16-34 | setting a field to its current value is no change, and setName and setCity commute |
| AreaPicking.ProvinceNames | wheelpicker/src/main/java/com/jx/wheelpicker/widget/WheelAreaPicker.java:135-137 | one label per province, in order, each the province's short name: a prefix of its name at most six characters long |
| AreaPicking.GetProvince | wheelpicker/src/main/java/com/jx/wheelpicker/widget/WheelAreaPicker.java:189-192 | succeeds exactly when the province index is in range, returning that province |
| AreaPicking.GetCity | wheelpicker/src/main/java/com/jx/wheelpicker/widget/WheelAreaPicker.java:194-197 | succeeds exactly when the city index is inside the city list, returning that city |
| AreaPicking.GetArea | wheelpicker/src/main/java/com/jx/wheelpicker/widget/WheelAreaPicker.java:199-202 | succeeds exactly when both the city index and the area index are in range, returning the selected city's area at the area index |
| AreaPicking.SetArea | wheelpicker/src/main/java/com/jx/wheelpicker/widget/WheelAreaPicker.java:179-187 | fails exactly when the position is outside the city list; otherwise the area column shows the labels of that city's areas at index 0, and provinces, city list, province and city columns are unchanged |
| AreaPicking.SetCityAndAreaData | wheelpicker/src/main/java/com/jx/wheelpicker/widget/WheelAreaPicker.java:163-177 | fails exactly when the position is outside the province list or that province has no city; otherwise the city list is that province's cities, the city column their labels at index 0, the area column the first city's area labels at index 0, the province column untouched |
| AreaPicking.ObtainProvinceData | wheelpicker/src/main/java/com/jx/wheelpicker/widget/WheelAreaPicker.java:134-140 | fails exactly when there is no province or the first has no city; otherwise the province column shows each province's short name, in order, all three indices are 0 and the picker is cascaded |
| AreaPicking.OnProvinceSettled | wheelpicker/src/main/java/com/jx/wheelpicker/widget/WheelAreaPicker.java:144-151 | province index = position, provinces and province labels kept; city list = that province's cities, city column their labels at index 0, area column the first city's area labels at index 0; the result is cascaded; fails exactly for an out-of-range position or a province without cities |
| AreaPicking.OnCitySettled | wheelpicker/src/main/java/com/jx/wheelpicker/widget/WheelAreaPicker.java:153-159 | only the area column is rebuilt, holding the labels of the settled city's areas at index 0, and the city index moves; provinces, city list, province column and city labels unchanged; cascade preserved; fails exactly for an out-of-range position |
| AreaPicking.OnAreaSettled | wheelpicker/src/main/java/com/jx/wheelpicker/widget/WheelAreaPicker.java:142-160 | with no listener on the area column only its index moves; every other field is unchanged |
| AreaPicking.CascadeInvariant | wheelpicker/src/main/java/com/jx/wheelpicker/widget/WheelAreaPicker.java:142-187 | after any sequence of settle events that succeeds, the city list is the selected province's cities and the area column shows the selected city's areas |
| AreaPicking.CascadedSelection | wheelpicker/src/main/java/com/jx/wheelpicker/widget/WheelAreaPicker.java:189-202 | in a cascaded picker getCity is one of getProvince's cities, getArea (when its index is in range) is one of getCity's areas, the area column shows that city's area labels, and the label at each column's selected position is the label of the object its getter returns |
| AreaPicking.ProvinceSettleSelects | wheelpicker/src/main/java/com/jx/wheelpicker/widget/WheelAreaPicker.java:144-151 | right after a province settle the getters return that province, its first city and, when it has one, that city's first area |

## Left out

- Loading the region dataset from the `RegionJsonData.txt` asset with Gson is I/O and a foreign library. The province list is an input. The `null` list that a failed load leaves behind is not modelled.
- The first-draw callback (`OnPreDrawListener`) fires one notification after layout. It is rendering plumbing and is not modelled.
- Layout parameters, text sizes, colours, alignment, `dip2px` (floating point) and `setItemTextSize` are not modelled. They have no effect on selection.
- `getDate` and `getStringDate` are left out. They hand the selection to a lenient `java.util.Calendar` and a `SimpleDateFormat`, which are foreign calls.
- The week-day index comes from `java.util.Calendar`. It enters as the parameter `dayOfWeek`, with no claim about its values beyond 1..7.
- The wheel widget's internals (clamping, scrolling) are not modelled. It may clamp indices in `setData` and `setSelectedItemPosition`. Here an index is recorded as given, so an index the widget would clamp makes the next lookup fail.
- `City.getShortName` and `Area.getShortName` are not modelled: their label rule lies outside the modelled classes and enters as the `Labels` functions.
- Selection by region code (`setSelectPositionByCode`, `AreaUtils`) lives outside these classes. So do the single-column and time pickers and the bottom-sheet dialogs. None of them is modelled.
- The date picker skips its scroll-change notification when no listener is registered. The model counts every call instead.
- Java `int` overflow is not modelled; integers are unbounded here. The code can overflow only at `i - DEFAULT_YEAR_COUNT / 2 + mCurYear` (WheelDatePicker.java:141), `maxYear - minYear + 1` (:284), `mCurYear - minYear` (:294) and `year - mYearList.get(0)` (:329), all of which need years near the ends of the `int` range.
- Shared mutable provinces: in Java `getProvince()` and `getCity()` return the live objects the picker holds, and `setName`/`setCity` mutate them in place, so `picker.getProvince().setCity(c)` leaves the city column built from the old list and `setName` leaves the province label stale. The model gives provinces value semantics, because aliasing through caller-held references is outside the picker's own logic; `AreaPicking.CascadeInvariant` therefore holds only for changes made through the picker.
- Regions.ShortName: counts Unicode scalar values, while Java's `length` and `substring` count UTF-16 code units. The two agree on every name made of Basic Multilingual Plane characters, which covers the Chinese region names.
- DatePicking.ComputeDayList: states the number of day labels and their two-digit day prefix, not the week-day suffix, which comes from the calendar collaborator.
- DatePicking.ObtainDateData: states the day labels' two-digit day prefix but not their week-day suffix, which comes from the calendar collaborator.
