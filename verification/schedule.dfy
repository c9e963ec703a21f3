/**
 The weekly schedule table of the booking calendar: one entry per offered
 weekday, Monday a group jam, Tuesday to Friday private lessons. The table is
 a constant; nothing in the widget changes it (in particular a booking never
 raises the booked count of a slot).
 */
module Schedule {
  import opened Wrappers
  import opened Days

  datatype LessonType = Jam | Private

  /** One row of the table. `maxCapacity`, `currentCapacity` (booked places per
      time) and `zoomClasses` (session title per time) are optional fields. */
  datatype ScheduleEntry = ScheduleEntry(
    kind: LessonType,
    times: seq<string>,
    maxCapacity: Option<nat>,
    price: nat,
    currentCapacity: Option<map<string, int>>,
    zoomClasses: Option<map<string, string>>)

  const JamPrice: nat := 20
  const PrivatePrice: nat := 95
  const JamCapacity: nat := 25

  const MondayEntry := ScheduleEntry(
    Jam,
    ["9:00 AM", "10:00 AM", "11:00 AM", "12:00 PM", "1:00 PM", "2:00 PM"],
    Some(JamCapacity),
    JamPrice,
    Some(map[]),
    Some(map[
      "9:00 AM" := "Old-Time Fiddle Groove",
      "10:00 AM" := "Twin Fiddles",
      "11:00 AM" := "Swing Time",
      "12:00 PM" := "Contemporary Tunes",
      "1:00 PM" := "Bluegrass Fiddles & Soloing"]))

  /** Tuesday, Thursday and Friday share one set of hourly times. */
  const HourlyTimes: seq<string> :=
    ["8:00 AM", "9:00 AM", "10:00 AM", "11:00 AM", "12:00 PM", "1:00 PM", "2:00 PM"]

  const WednesdayTimes: seq<string> :=
    ["7:30 AM", "8:30 AM", "9:30 AM", "10:30 AM", "11:30 AM", "12:30 PM", "1:30 PM"]

  function PrivateEntry(times: seq<string>): ScheduleEntry {
    ScheduleEntry(Private, times, None, PrivatePrice, None, None)
  }

  /** The table itself, keyed by weekday. Saturday and Sunday are absent. */
  const SCHEDULE: map<Weekday, ScheduleEntry> := map[
    Monday := MondayEntry,
    Tuesday := PrivateEntry(HourlyTimes),
    Wednesday := PrivateEntry(WednesdayTimes),
    Thursday := PrivateEntry(HourlyTimes),
    Friday := PrivateEntry(HourlyTimes)]

  /** What a weekend lookup falls back to: a private "entry" with no times, price 0. */
  const NoOffering := ScheduleEntry(Private, [], None, 0, None, None)

  /** `SCHEDULE[dayName]`, which is `undefined` for a missing key. */
  function Lookup(w: Weekday): (e: Option<ScheduleEntry>)
    ensures e.Some? <==> IsWorkday(w)
  {
    if w in SCHEDULE then Some(SCHEDULE[w]) else None
  }

  /** The table keeps the invariant that every key maps to an entry with at
      least one time, and its keys are exactly the five workdays; only Monday
      is a jam, and only the jam has a capacity. */
  lemma ScheduleWellFormed()
    ensures forall w :: w in SCHEDULE <==> IsWorkday(w)
    ensures forall w | w in SCHEDULE :: |SCHEDULE[w].times| > 0
    ensures forall w | w in SCHEDULE :: SCHEDULE[w].kind == Jam <==> w == Monday
    ensures forall w | w in SCHEDULE :: SCHEDULE[w].maxCapacity.Some? <==> w == Monday
    ensures forall w | w in SCHEDULE && w != Monday :: SCHEDULE[w].price == PrivatePrice
  {
  }

  /** `getAvailableSlots(date)`: the entry for the date's weekday, or the empty
      placeholder. Monday offers six jam times at the jam price with capacity
      25, Tuesday to Friday seven private times at the private price, and a
      weekend day no times at all, at price 0. */
  function AvailableSlots(d: Day): (e: ScheduleEntry)
    ensures WeekdayOf(d) == Monday ==>
      e.kind == Jam && e.price == JamPrice && |e.times| == 6 && e.maxCapacity == Some(JamCapacity)
    ensures IsWorkday(WeekdayOf(d)) && WeekdayOf(d) != Monday ==>
      e.kind == Private && e.price == PrivatePrice && |e.times| == 7
    ensures !IsWorkday(WeekdayOf(d)) ==> e.times == [] && e.kind == Private && e.price == 0
    ensures |e.times| > 0 <==> IsWorkday(WeekdayOf(d))
    ensures IsWorkday(WeekdayOf(d)) ==> e == SCHEDULE[WeekdayOf(d)]
    ensures !IsWorkday(WeekdayOf(d)) ==> e == NoOffering
  {
    Lookup(WeekdayOf(d)).GetOr(NoOffering)
  }
}
