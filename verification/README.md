# MyFiddleSchedule: scheduling and pricing core in Dafny

MyFiddleSchedule is a booking widget for music lessons. This project models
the two pieces of pure logic under its UI and proves properties of them.

* **The booking calendar** (`components/scheduling/Calendar.tsx`). It holds a
  fixed weekly schedule table: Monday is a group "jam" with capacity 25 at $20,
  and Tuesday to Friday are private lessons at $95. It resolves a date's
  offering, the Monday-to-Friday week around a date, and the offered days of a
  month. It shows a slot's price. The Monday jam costs $20 while the session's
  Monday count is below 4 and $25 after that. Confirming a booking turns a
  single date, or a weekly or biweekly series, into (date, time, price) items.
  The Monday count is threaded through the series and stored back at the end.
* **The Monday classes page** (`pages/monday-classes.tsx`). It keeps a cart of
  (date, time) selections that a click toggles. Its total uses the opposite
  tier: $25 per Monday class until four or more are selected, then $20 each.
  The two tier rules are modelled separately, each as its own file states it.

Dates are whole days: `Days.Day` counts days since 1 January 1970, a Thursday.
The weekday is `(d + 4) % 7`, with 0 for Sunday, the same numbering as
JavaScript's `getDay()`. Dafny's `%` is Euclidean, so days before 1970 work too.
The upper-case weekday name that the source uses as the table key
(`format(date, 'EEEE').toUpperCase()`) is the `Weekday` constructor.

Modules: `Wrappers` (Option), `Days` (day numbers, weekdays, date-fns
`addDays`/`addWeeks`/`startOfWeek`), `Schedule` (the table), `Calendar` (week,
month, slot price, places left), `Booking` (booking submit), and
`MondayClasses` (the cart page).

Two behaviours of the code worth knowing:
* A submit with no date or no time silently does nothing. An empty time
  string counts as "no time", because JavaScript treats `""` as false.
* The selection is cleared by a 3-second timer, not by the submit itself. The
  timer is left out (see below).

## Model

| member | source | states |
|---|---|---|
| `Days.StartOfWeek` | components/scheduling/Calendar.tsx:164 | the week start is the last day on or before the date whose weekday index is `weekStartsOn` (Monday for the calendar) |
| `Days.WeekdayOfAddWeeks` | components/scheduling/Calendar.tsx:257-260 | adding whole weeks never changes the weekday |
| `Schedule.ScheduleWellFormed` | components/scheduling/Calendar.tsx:91-126 | the table's keys are exactly Monday to Friday; every entry has at least one time; only Monday is a jam and only it has a capacity; the other days cost 95 |
| `Schedule.Lookup` | components/scheduling/Calendar.tsx:176-177 | a weekday has a table entry exactly when it is Monday to Friday |
| `Schedule.AvailableSlots` | components/scheduling/Calendar.tsx:175-178 | on a workday the result is that weekday's table entry itself (its times, titles and booked places), and on a weekend it is the empty placeholder; concretely, Monday gives the jam entry (six times, 20, capacity 25); Tuesday to Friday give a private entry with seven times at 95; Saturday and Sunday give no times at price 0; times are non-empty exactly on workdays |
| `Calendar.DaysInWeek` | components/scheduling/Calendar.tsx:162-169 | exactly five consecutive ascending days, the first a Monday on or before the date and less than a week before it, with weekdays Monday to Friday; the date is among them exactly when it is a workday |
| `Calendar.AvailableDatesInMonth` | components/scheduling/Calendar.tsx:183-197 | the result is strictly ascending and holds a day exactly when it is in the month and has a table entry, which means exactly the month's Monday-to-Friday days |
| `Calendar.MondayTierPrice` | components/scheduling/Calendar.tsx:209 | the jam price is 20 exactly when fewer than 4 Mondays are counted, and 25 exactly when 4 or more are |
| `Calendar.SlotPrice` | components/scheduling/Calendar.tsx:202-212 | 0 on an unscheduled day; 20 on a Monday below the count of 4 and 25 at or above it; 95 on Tuesday to Friday |
| `Calendar.SlotPriceTierMonotone` | components/scheduling/Calendar.tsx:209 | a larger Monday count never gives a lower Monday price; once the price is 25 it stays 25 |
| `Calendar.SpotsLeft` | components/scheduling/Calendar.tsx:470-476 | a figure is shown exactly for a jam with a capacity; the places left plus the places booked equal the capacity |
| `Calendar.SpotsLeftOnMonday` | components/scheduling/Calendar.tsx:92-97 | nothing books a place in the table, so every Monday slot shows all 25 places; other days show no figure |
| `Calendar.WednesdayScenario` | components/scheduling/Calendar.tsx:162-178 | for a Wednesday, the week shown is exactly the five days from the Monday two days before it to the Friday two days after it, and its slots are seven private lessons at 95 |
| `Booking.StepDays` | components/scheduling/Calendar.tsx:257-260 | a weekly series steps 7 days and a biweekly one 14 |
| `Booking.NextDate` | components/scheduling/Calendar.tsx:257-260 | the next date of a series is one step (7 or 14 days) later and falls on the same weekday |
| `Booking.ResolvePrice` | components/scheduling/Calendar.tsx:240-249 | the price charged for a lesson is the price its slot shows for the current count; the count grows by one exactly when the lesson is on a Monday |
| `Booking.ExpandSeries` | components/scheduling/Calendar.tsx:236-261 | exactly the requested number of items (none if it is not positive), all at the selected time; the first is on the start date; consecutive dates are 7 or 14 days apart; all fall on the start date's weekday; the count grows by the length of the series for a Monday start and not at all otherwise |
| `Booking.SeriesPrices` | components/scheduling/Calendar.tsx:238-256 | the i-th item of a series costs its slot's price at the starting count plus i for a Monday series, and at the unchanged count otherwise |
| `Booking.MondayItemsOfOneWeekday` | components/scheduling/Calendar.tsx:244-246 | when all items fall on one weekday, the Monday items are all of them (Monday) or none |
| `Booking.HandleBookingSubmit` | components/scheduling/Calendar.tsx:225-283 | nothing happens exactly when the date or the time is unset; a single booking is one item at the date's shown price; a recurring one has exactly the requested number of items, consecutive dates 7 days apart for a weekly series and 14 for a biweekly one; the first item is on the selected date; all items share the time and the start date's weekday; each item costs its slot's price at the count threaded up to it; the stored count is the old count plus the number of Monday items, so it never decreases |
| `Booking.MondaySeriesTotal` | components/scheduling/Calendar.tsx:239-250 | a Monday series starting at count c costs 20 for each item while the count is below 4, and 25 for each of the rest |
| `Booking.FreshMondaySeriesTotals` | components/scheduling/Calendar.tsx:234-283 | from a fresh session, four weekly Mondays cost 80 and five cost 105, and the stored count ends at 4 and 5 |
| `Booking.OtherDaySeriesTotal` | components/scheduling/Calendar.tsx:247-249 | a series not starting on a Monday costs the flat price of its weekday per item (95 on a workday, 0 on a weekend) and leaves the Monday count unchanged |
| `MondayClasses.FindIndex` | pages/monday-classes.tsx:36-38 | the search stops at the first entry equal to the (date, time) pair, or at the end exactly when the pair is absent |
| `MondayClasses.ToggleSelection` | pages/monday-classes.tsx:34-46 | an absent pair is appended at the end; a present pair loses the first entry equal to it, and the other entries keep their order (one fewer entry, the same multiset minus that pair) |
| `MondayClasses.ToggleKeepsNoDuplicates` | pages/monday-classes.tsx:36-44 | toggling keeps the cart free of duplicate (date, time) pairs |
| `MondayClasses.ToggleFlipsMembership` | pages/monday-classes.tsx:34-46 | on a cart without duplicates, a toggle flips whether the pair is in the cart and leaves every other pair as it was |
| `MondayClasses.ToggleTwiceRestores` | pages/monday-classes.tsx:39-45 | toggling a pair twice, starting from a cart without it, gives back the original cart |
| `MondayClasses.MondayCount` | pages/monday-classes.tsx:49-52 | the number of Monday selections never exceeds the cart size; with `MondayCountBounds` it equals the size exactly when all are Mondays and is zero exactly when none are, and with `ToggleMondayCount` a toggle moves it by one exactly for a Monday pair |
| `MondayClasses.MondayCountBounds` | pages/monday-classes.tsx:49-52 | the Monday count equals the cart size exactly when every selection is a Monday, and is zero exactly when none is |
| `MondayClasses.ToggleMondayCount` | pages/monday-classes.tsx:34-52 | a toggle raises the Monday count by one when it adds a Monday pair and lowers it by one when it removes one; any other pair leaves the count unchanged |
| `MondayClasses.GetMondayPrice` | pages/monday-classes.tsx:55 | the Monday price is 20 exactly when 4 or more Mondays are selected, and 25 exactly when fewer are |
| `MondayClasses.AccumulateCost` | pages/monday-classes.tsx:58-67 | the accumulated total is the Monday price times the Monday count plus 25 times the other selections |
| `MondayClasses.TotalCost` | pages/monday-classes.tsx:54-67 | with 4 or more Mondays the total is 20 per Monday plus 25 per other class; with fewer, it is 25 per class |
| `MondayClasses.ClickKeepsPageReachable` | pages/monday-classes.tsx:75-84 | the empty cart and every cart built by clicking the time buttons hold only `mondayDate` entries at the page's times, with no duplicates |
| `MondayClasses.PageTotal` | pages/monday-classes.tsx:27-67 | when every selection is on `mondayDate`, a Monday, the total is 20 per class for four or more classes and 25 per class otherwise |
| `MondayClasses.PageCartAtMostSix` | pages/monday-classes.tsx:15-22 | a cart the page builds holds at most six classes, one per offered time, so its total never exceeds 120 |

## Left out

- Rendering: JSX, styling constants, icons, class images, the font and the zoom-class titles. This is presentation only.
- React state plumbing, `handleTimeSelect`, the week/month view toggle and the previous/next week buttons. These only set state. Week navigation is `Days.AddWeeks` by ±1.
- The 3-second timer after a submit hides the success notice and clears the selection. It is a timer side effect.
- `console.log` is the booking sink. The model returns the items instead.
- Booking items carry their day number, not the formatted `EEEE, MMMM d, yyyy` text. Date formatting is not modelled.
- date-fns `startOfMonth`/`endOfMonth` are left out. A month is given by its first and last day numbers.
- Time of day, time zones and daylight saving are left out, and a date is a day number. This loses nothing. The current week, `new Date()`, reaches the logic only through `startOfWeek` and `startOfMonth`, which move it to a midnight. The month loop compares a midnight with the month's last instant, which is the same as comparing it with the month's last day.
- Calendar.SpotsLeft: a jam without a capacity would show `NaN` in the source. The model returns None, because the table's only jam has a capacity.
- The cart page shows `getMondayPrice()` on every cart line, whatever the day. This is rendering; the total is modelled.
- The number of sessions of a series is a JavaScript number in the source and an `int` here. The form offers only 4, 8 or 12, so fractions never arise; a non-positive count gives no items, as the loop does.
- `components/scheduling/BookingForm.tsx` is not part of this model. It is form fields only.
- The Jupyter checkpoint copies of the calendar and month view are not part of this model. They are stale autosaves that nothing imports, and the calendar copy charges a flat 25 for the Monday jam.
