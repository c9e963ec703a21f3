/**
 The slot and price resolver of the booking calendar: the Monday-to-Friday
 week shown for a date, the offered days of a month, the price shown for a
 slot, and the places left in a jam slot.
 */
module Calendar {
  import opened Wrappers
  import opened Days
  import opened Schedule

  /** The Monday jam is charged the early price while fewer than
      `JamEarlyLimit` Monday jams have been booked, the late price afterwards. */
  const JamEarlyPrice: nat := 20
  const JamLatePrice: nat := 25
  const JamEarlyLimit: nat := 4

  /** `getDaysInWeek(startDate)`: the five days from the Monday that starts the
      week of `startDate` (weeks start on Monday), in ascending order. */
  method DaysInWeek(startDate: Day) returns (days: seq<Day>)
    ensures |days| == 5
    ensures WeekdayOf(days[0]) == Monday
    ensures forall i | 0 <= i < 5 :: days[i] == days[0] + i
    ensures forall i | 0 <= i < 5 :: DayIndex(days[i]) == i + 1
    ensures days[0] <= startDate < days[0] + 7
    ensures startDate in days <==> IsWorkday(WeekdayOf(startDate))
  {
    days := [];
    var currentDate := StartOfWeek(startDate, 1);
    for i := 0 to 5
      invariant |days| == i
      invariant forall j | 0 <= j < i :: days[j] == currentDate + j
    {
      days := days + [AddDays(currentDate, i)];
    }
    forall i | 0 <= i < 5
      ensures DayIndex(days[i]) == i + 1
    {
      WeekdayAfterMonday(currentDate, i);
    }
    var k := startDate - currentDate;
    WeekdayAfterMonday(currentDate, k);
    WorkdayIndex(startDate);
    if k < 5 {
      assert days[k] == startDate;
    } else {
      forall i | 0 <= i < 5
        ensures days[i] != startDate
      {
      }
    }
  }

  /** Whether the table offers lessons on a day (`SCHEDULE[dayName]` is set). */
  predicate IsOffered(d: Day) {
    WeekdayOf(d) in SCHEDULE
  }

  /** `getAvailableDatesInMonth()`, for the month running from `monthStart` to
      `monthEnd`: walks the month one day at a time and keeps the offered days.
      The result is strictly ascending and holds exactly the Monday-to-Friday
      days of the month. */
  method AvailableDatesInMonth(monthStart: Day, monthEnd: Day) returns (dates: seq<Day>)
    ensures forall i, j | 0 <= i < j < |dates| :: dates[i] < dates[j]
    ensures forall x :: x in dates <==> monthStart <= x <= monthEnd && IsOffered(x)
    ensures forall x :: x in dates <==> monthStart <= x <= monthEnd && IsWorkday(WeekdayOf(x))
  {
    dates := [];
    var current := monthStart;
    while current <= monthEnd
      invariant current == monthStart || monthStart < current <= monthEnd + 1
      invariant forall i, j | 0 <= i < j < |dates| :: dates[i] < dates[j]
      invariant forall i | 0 <= i < |dates| :: dates[i] < current
      invariant forall x :: x in dates <==> monthStart <= x < current && IsOffered(x)
      decreases monthEnd - current
    {
      if WeekdayOf(current) in SCHEDULE {
        dates := dates + [current];
      }
      current := AddDays(current, 1);
    }
    Schedule.ScheduleWellFormed();
  }

  /** The tiered Monday jam price for the running count of Monday bookings. */
  function MondayTierPrice(mondayLessonCount: nat): (price: nat)
    ensures price == JamEarlyPrice <==> mondayLessonCount < JamEarlyLimit
    ensures price == JamLatePrice <==> mondayLessonCount >= JamEarlyLimit
  {
    if mondayLessonCount < JamEarlyLimit then JamEarlyPrice else JamLatePrice
  }

  /** `getSlotPrice(date)` given the session's Monday count: nothing on an
      unscheduled day, the tiered price for the Monday jam, the flat private
      price on Tuesday to Friday. */
  function SlotPrice(d: Day, mondayLessonCount: nat): (price: nat)
    ensures !IsWorkday(WeekdayOf(d)) ==> price == 0
    ensures WeekdayOf(d) == Monday && mondayLessonCount < JamEarlyLimit ==> price == JamEarlyPrice
    ensures WeekdayOf(d) == Monday && mondayLessonCount >= JamEarlyLimit ==> price == JamLatePrice
    ensures IsWorkday(WeekdayOf(d)) && WeekdayOf(d) != Monday ==> price == PrivatePrice
  {
    var dayName := WeekdayOf(d);
    match Lookup(dayName)
    case None => 0
    case Some(daySchedule) =>
      if dayName == Monday && daySchedule.kind == Jam then MondayTierPrice(mondayLessonCount)
      else daySchedule.price
  }

  /** Once the Monday count has reached the limit, a Monday is never again
      offered at the early price, however far the count grows. */
  lemma SlotPriceTierMonotone(d: Day, before: nat, after: nat)
    requires WeekdayOf(d) == Monday
    requires before <= after
    ensures SlotPrice(d, before) <= SlotPrice(d, after)
    ensures SlotPrice(d, before) == JamLatePrice ==> SlotPrice(d, after) == JamLatePrice
  {
  }

  /** Places booked at a time: the entry's recorded figure, 0 when the entry
      records none for that time (or records no bookings at all). */
  function Booked(e: ScheduleEntry, time: string): int {
    match e.currentCapacity
    case None => 0
    case Some(booked) => if time in booked then booked[time] else 0
  }

  /** The "spots left" figure shown under a jam slot: the capacity minus the
      places booked at that time. It is shown only for a jam; a jam without a
      capacity would show NaN, here None. */
  function SpotsLeft(e: ScheduleEntry, time: string): (spots: Option<int>)
    ensures spots.Some? <==> e.kind == Jam && e.maxCapacity.Some?
    ensures spots.Some? ==> spots.value + Booked(e, time) == e.maxCapacity.value
  {
    if e.kind != Jam then None
    else match e.maxCapacity
      case None => None
      case Some(cap) => Some(cap - Booked(e, time))
  }

  /** Nothing ever books a place in the table, so every Monday slot shows the
      full capacity of 25 places, and no other day shows a figure. */
  lemma SpotsLeftOnMonday(d: Day, time: string)
    ensures WeekdayOf(d) == Monday ==> SpotsLeft(AvailableSlots(d), time) == Some(JamCapacity)
    ensures WeekdayOf(d) != Monday ==> SpotsLeft(AvailableSlots(d), time) == None
  {
    Schedule.ScheduleWellFormed();
  }

  /** Showing a Wednesday: its week runs Monday to Friday around it, and it
      offers private lessons at the flat price. */
  method WednesdayScenario(wednesday: Day) returns (week: seq<Day>, slots: ScheduleEntry)
    requires WeekdayOf(wednesday) == Wednesday
    ensures |week| == 5 && week[2] == wednesday
    ensures week == [wednesday - 2, wednesday - 1, wednesday, wednesday + 1, wednesday + 2]
    ensures WeekdayOf(week[0]) == Monday && WeekdayOf(week[4]) == Friday
    ensures slots.kind == Private && slots.price == PrivatePrice && |slots.times| == 7
  {
    week := DaysInWeek(wednesday);
    assert wednesday in week;
    var k :| 0 <= k < 5 && week[k] == wednesday;
    assert k == 2;
    slots := AvailableSlots(wednesday);
  }
}
