/**
 Confirming a booking in the calendar: a single date, or a weekly or
 biweekly series, becomes a list of (date, time, price) items. The session's
 Monday jam count is threaded through the series in date order, so the early
 price runs out part-way through a series, and the final count is stored
 back for the session.
 */
module Booking {
  import opened Wrappers
  import opened Days
  import opened Schedule
  import opened Calendar

  datatype Frequency = Weekly | Biweekly

  /** The values the booking form holds when "Confirm Booking" is pressed. */
  datatype BookingDraft = BookingDraft(
    selectedDate: Option<Day>,
    selectedTime: Option<string>,
    isRecurring: bool,
    recurringFrequency: Frequency,
    recurringWeeks: int)

  /** One booked lesson; the source formats the date as text, here it stays a day. */
  datatype BookingItem = BookingItem(date: Day, time: string, price: nat)

  /** The price of one lesson and the Monday count after it. */
  datatype Charge = Charge(price: nat, mondayCount: nat)

  /** Generated items and the Monday count after the last of them. */
  datatype Series = Series(items: seq<BookingItem>, mondayCount: nat)

  /** Either nothing happens, or the items go to the log and the session's
      Monday count is replaced. */
  datatype SubmitOutcome =
    | Ignored
    | Submitted(items: seq<BookingItem>, mondayLessonCount: nat)

  /** Whole weeks between two dates of a series: one weekly, two biweekly. */
  function WeeksPerStep(f: Frequency): nat {
    if f == Weekly then 1 else 2
  }

  /** The gap between two dates of a series, in days. */
  function StepDays(f: Frequency): (step: int)
    ensures f == Weekly ==> step == 7
    ensures f == Biweekly ==> step == 14
  {
    7 * WeeksPerStep(f)
  }

  /** The date of the next lesson of a series: `StepDays` after `date`, on the same weekday. */
  function NextDate(date: Day, frequency: Frequency): (next: Day)
    ensures next == date + StepDays(frequency)
    ensures WeekdayOf(next) == WeekdayOf(date)
  {
    WeekdayOfAddWeeks(date, WeeksPerStep(frequency));
    AddWeeks(date, WeeksPerStep(frequency))
  }

  /** How many items fall on a Monday. */
  function MondayItems(items: seq<BookingItem>): (n: nat)
    ensures n <= |items|
  {
    if |items| == 0 then 0
    else (if WeekdayOf(items[0].date) == Monday then 1 else 0) + MondayItems(items[1..])
  }

  /** Sum of the item prices. */
  function TotalPrice(items: seq<BookingItem>): nat {
    if |items| == 0 then 0 else items[0].price + TotalPrice(items[1..])
  }

  /** The per-lesson pricing of `handleBookingSubmit`, shared by its single and
      recurring branches: a Monday jam costs the tiered price and counts one
      more Monday, any other day costs its entry's price (or 0) and leaves the
      count alone. The charged price is the price the slot shows. */
  function ResolvePrice(d: Day, localMondayCount: nat): (c: Charge)
    ensures c.price == SlotPrice(d, localMondayCount)
    ensures c.mondayCount == localMondayCount + (if WeekdayOf(d) == Monday then 1 else 0)
  {
    var dayName := WeekdayOf(d);
    var daySchedule := Lookup(dayName);
    if daySchedule.Some? && daySchedule.value.kind == Jam && dayName == Monday then
      Charge(MondayTierPrice(localMondayCount), localMondayCount + 1)
    else
      Charge(if daySchedule.Some? then daySchedule.value.price else 0, localMondayCount)
  }

  /** The loop of the recurring branch, from the iteration whose date is `date`
      with `remaining` iterations left. It yields exactly `remaining` items (none
      if that is not positive), all at the same time, starting on `date` and
      spaced by the frequency, so all on `date`'s weekday; each is charged the
      shown price for the count threaded up to it, and the count grows by
      exactly the number of Monday items (all of them or none). */
  function ExpandSeries(date: Day, time: string, frequency: Frequency, remaining: int, localMondayCount: nat): (s: Series)
    decreases remaining
    ensures |s.items| == if remaining > 0 then remaining else 0
    ensures |s.items| > 0 ==> s.items[0].date == date
    ensures forall i | 0 <= i < |s.items| :: s.items[i].time == time
    ensures forall i | 0 <= i < |s.items| - 1 :: s.items[i + 1].date == s.items[i].date + StepDays(frequency)
    ensures forall i | 0 <= i < |s.items| :: WeekdayOf(s.items[i].date) == WeekdayOf(date)
    ensures s.mondayCount == localMondayCount + (if WeekdayOf(date) == Monday then |s.items| else 0)
  {
    if remaining <= 0 then Series([], localMondayCount)
    else
      var charge := ResolvePrice(date, localMondayCount);
      var next := NextDate(date, frequency);
      var rest := ExpandSeries(next, time, frequency, remaining - 1, charge.mondayCount);
      Series([BookingItem(date, time, charge.price)] + rest.items, rest.mondayCount)
  }

  /** Every item is charged the price its slot shows for the Monday count
      threaded up to it: the starting count plus the item's position when the
      items are Mondays, the starting count throughout otherwise. */
  predicate PricedFrom(items: seq<BookingItem>, count: nat, onMonday: bool) {
    forall i | 0 <= i < |items| :: items[i].price == SlotPrice(items[i].date, count + (if onMonday then i else 0))
  }

  /** Putting an item charged at the current count in front of items priced
      from the count after it keeps the whole list priced from the current count. */
  lemma PricedFromCons(first: BookingItem, rest: seq<BookingItem>, count: nat, onMonday: bool)
    requires first.price == SlotPrice(first.date, count)
    requires PricedFrom(rest, count + (if onMonday then 1 else 0), onMonday)
    ensures PricedFrom([first] + rest, count, onMonday)
  {
    var items := [first] + rest;
    forall i | 0 < i < |items|
      ensures items[i].price == SlotPrice(items[i].date, count + (if onMonday then i else 0))
    {
      assert items[i] == rest[i - 1];
    }
  }

  /** Each item of a series is charged the price its slot shows for the Monday
      count threaded up to it: on a Monday series the i-th item sees the
      starting count plus i, on any other day the count never moves. */
  lemma {:induction false} SeriesPrices(date: Day, time: string, frequency: Frequency, remaining: int, localMondayCount: nat)
    decreases remaining
    ensures PricedFrom(ExpandSeries(date, time, frequency, remaining, localMondayCount).items,
                       localMondayCount, WeekdayOf(date) == Monday)
  {
    if remaining > 0 {
      var charge := ResolvePrice(date, localMondayCount);
      var next := NextDate(date, frequency);
      SeriesPrices(next, time, frequency, remaining - 1, charge.mondayCount);
      var rest := ExpandSeries(next, time, frequency, remaining - 1, charge.mondayCount);
      PricedFromCons(BookingItem(date, time, charge.price), rest.items, localMondayCount, WeekdayOf(date) == Monday);
    }
  }

  /** When every item falls on the same weekday, the Monday items are all of
      them or none. */
  lemma {:induction false} MondayItemsOfOneWeekday(items: seq<BookingItem>, w: Weekday)
    requires forall i | 0 <= i < |items| :: WeekdayOf(items[i].date) == w
    ensures MondayItems(items) == if w == Monday then |items| else 0
    decreases |items|
  {
    if |items| > 0 {
      MondayItemsOfOneWeekday(items[1..], w);
    }
  }

  /** `handleBookingSubmit()` with the session's Monday count. It refuses (does
      nothing) unless both a date and a non-empty time are selected. A single
      booking is one item at the shown price; a recurring one is the expanded
      series. Either way the new count is the old one plus the Monday items,
      so it never decreases. */
  function HandleBookingSubmit(draft: BookingDraft, mondayLessonCount: nat): (out: SubmitOutcome)
    ensures out.Ignored? <==> draft.selectedDate.None? || draft.selectedTime.None? || draft.selectedTime.value == ""
    ensures out.Submitted? ==> out.mondayLessonCount == mondayLessonCount + MondayItems(out.items)
    ensures out.Submitted? ==> out.mondayLessonCount >= mondayLessonCount
    ensures out.Submitted? && !draft.isRecurring ==>
      out.items == [BookingItem(draft.selectedDate.value, draft.selectedTime.value,
                                SlotPrice(draft.selectedDate.value, mondayLessonCount))]
    ensures out.Submitted? && draft.isRecurring ==>
      |out.items| == (if draft.recurringWeeks > 0 then draft.recurringWeeks else 0)
    ensures out.Submitted? ==> forall i | 0 <= i < |out.items| ::
      out.items[i].time == draft.selectedTime.value && WeekdayOf(out.items[i].date) == WeekdayOf(draft.selectedDate.value)
    ensures out.Submitted? && |out.items| > 0 ==> out.items[0].date == draft.selectedDate.value
    ensures out.Submitted? && draft.isRecurring ==> forall i | 0 <= i < |out.items| - 1 ::
      out.items[i + 1].date == out.items[i].date + StepDays(draft.recurringFrequency)
    ensures out.Submitted? ==>
      PricedFrom(out.items, mondayLessonCount, WeekdayOf(draft.selectedDate.value) == Monday)
  {
    if draft.selectedDate.None? || draft.selectedTime.None? || draft.selectedTime.value == "" then
      Ignored
    else
      var selectedDate := draft.selectedDate.value;
      var selectedTime := draft.selectedTime.value;
      if draft.isRecurring then
        var series := ExpandSeries(selectedDate, selectedTime, draft.recurringFrequency, draft.recurringWeeks, mondayLessonCount);
        MondayItemsOfOneWeekday(series.items, WeekdayOf(selectedDate));
        SeriesPrices(selectedDate, selectedTime, draft.recurringFrequency, draft.recurringWeeks, mondayLessonCount);
        Submitted(series.items, series.mondayCount)
      else
        var charge := ResolvePrice(selectedDate, mondayLessonCount);
        Submitted([BookingItem(selectedDate, selectedTime, charge.price)], charge.mondayCount)
  }

  /** The cost of `n` Monday jams booked from Monday count `count`: the early
      price for as many as are left below the limit, the late price for the rest. */
  function TieredMondayCost(count: nat, n: nat): (total: nat) {
    var early := if count >= JamEarlyLimit then 0
                 else if n < JamEarlyLimit - count then n else JamEarlyLimit - count;
    JamEarlyPrice * early + JamLatePrice * (n - early)
  }

  /** A recurring series starting on a Monday costs the tiered total: the
      early price until the session's Monday count reaches 4, then the late price. */
  lemma {:induction false} MondaySeriesTotal(date: Day, time: string, frequency: Frequency, n: nat, count: nat)
    requires WeekdayOf(date) == Monday
    ensures TotalPrice(ExpandSeries(date, time, frequency, n, count).items) == TieredMondayCost(count, n)
    decreases n
  {
    if n > 0 {
      var next := NextDate(date, frequency);
      MondaySeriesTotal(next, time, frequency, n - 1, count + 1);
    }
  }

  /** Four weekly Mondays from a fresh session cost 4 x 20 = 80; five cost
      4 x 20 + 25 = 105, and the session's count ends at 4 and 5. */
  lemma FreshMondaySeriesTotals(monday: Day, time: string)
    requires WeekdayOf(monday) == Monday
    ensures TotalPrice(ExpandSeries(monday, time, Weekly, 4, 0).items) == 80
    ensures TotalPrice(ExpandSeries(monday, time, Weekly, 5, 0).items) == 105
    ensures ExpandSeries(monday, time, Weekly, 4, 0).mondayCount == 4
    ensures ExpandSeries(monday, time, Weekly, 5, 0).mondayCount == 5
  {
    MondaySeriesTotal(monday, time, Weekly, 4, 0);
    MondaySeriesTotal(monday, time, Weekly, 5, 0);
  }

  /** A series that does not start on a Monday costs the flat price of its
      weekday each time (the private price on a workday, 0 at a weekend) and
      leaves the Monday count untouched. */
  lemma {:induction false} OtherDaySeriesTotal(date: Day, time: string, frequency: Frequency, n: nat, count: nat)
    requires WeekdayOf(date) != Monday
    ensures TotalPrice(ExpandSeries(date, time, frequency, n, count).items)
      == n * (if IsWorkday(WeekdayOf(date)) then PrivatePrice else 0)
    ensures ExpandSeries(date, time, frequency, n, count).mondayCount == count
    decreases n
  {
    if n > 0 {
      var flat := if IsWorkday(WeekdayOf(date)) then PrivatePrice else 0;
      var next := NextDate(date, frequency);
      OtherDaySeriesTotal(next, time, frequency, n - 1, count);
      var s := ExpandSeries(date, time, frequency, n, count);
      var rest := ExpandSeries(next, time, frequency, n - 1, count);
      assert s.items == [BookingItem(date, time, ResolvePrice(date, count).price)] + rest.items;
      assert s.items[1..] == rest.items;
      assert ResolvePrice(date, count).price == flat;
      assert TotalPrice(s.items) == flat + (n - 1) * flat;
    }
  }

}
