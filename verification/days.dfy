/**
 Calendar days as integers. A `Day` is the number of days since 1 January
 1970, a Thursday. The time of day is dropped: the current instant reaches the
 calendar logic only through `startOfWeek` or `startOfMonth`, which give a
 local midnight, and the month loop compares midnights with the month's last
 instant, which is the same as comparing them with its last day.
 The weekday follows JavaScript's `getDay()`: 0 is Sunday, 1 is Monday, ...
 */
module Days {

  type Day = int

  datatype Weekday = Sunday | Monday | Tuesday | Wednesday | Thursday | Friday | Saturday

  /** `getDay()`: the weekday index of a day, 0 = Sunday. Day 0 is a Thursday (4). */
  function DayIndex(d: Day): (i: nat)
    ensures i < 7
  {
    (d + 4) % 7
  }

  function FromIndex(i: nat): Weekday
    requires i < 7
  {
    if i == 0 then Sunday
    else if i == 1 then Monday
    else if i == 2 then Tuesday
    else if i == 3 then Wednesday
    else if i == 4 then Thursday
    else if i == 5 then Friday
    else Saturday
  }

  function IndexOf(w: Weekday): (i: nat)
    ensures i < 7 && FromIndex(i) == w
  {
    match w
    case Sunday => 0
    case Monday => 1
    case Tuesday => 2
    case Wednesday => 3
    case Thursday => 4
    case Friday => 5
    case Saturday => 6
  }

  /** The weekday of a day: what `format(date, 'EEEE').toUpperCase()` names. */
  function WeekdayOf(d: Day): Weekday {
    FromIndex(DayIndex(d))
  }

  /** Monday to Friday. */
  predicate IsWorkday(w: Weekday) {
    w != Saturday && w != Sunday
  }

  /** `addDays(d, n)`. */
  function AddDays(d: Day, n: int): (r: Day)
    ensures r - d == n
  {
    d + n
  }

  /** `addWeeks(d, n)`: whole weeks of seven days. */
  function AddWeeks(d: Day, n: int): (r: Day)
    ensures r - d == 7 * n
  {
    AddDays(d, 7 * n)
  }

  /** Shifting a day by `n` shifts its weekday index by `n`, modulo 7. */
  lemma DayIndexShift(d: Day, n: int)
    ensures DayIndex(d + n) == (DayIndex(d) + n) % 7
  {
    var q := (d + 4) / 7;
    assert d + 4 == 7 * q + DayIndex(d);
    ModAddMultiple(DayIndex(d) + n, q);
  }

  lemma ModAddMultiple(x: int, q: int)
    ensures (7 * q + x) % 7 == x % 7
  {
  }

  /** Adding whole weeks keeps the weekday. */
  lemma WeekdayOfAddWeeks(d: Day, n: int)
    ensures WeekdayOf(AddWeeks(d, n)) == WeekdayOf(d)
  {
    DayIndexShift(d, 7 * n);
    ModAddMultiple(DayIndex(d), n);
  }

  /** The day `k` days after a Monday, for `0 <= k < 7`, has weekday index
      `(k + 1) % 7`: 1 (Monday) to 6 (Saturday), then 0 (Sunday) for k = 6. */
  lemma WeekdayAfterMonday(m: Day, k: int)
    requires WeekdayOf(m) == Monday
    requires 0 <= k < 7
    ensures DayIndex(m + k) == (k + 1) % 7
  {
    DayIndexShift(m, k);
  }

  /** A day is a workday exactly when its weekday index is 1 (Monday) to 5 (Friday). */
  lemma WorkdayIndex(d: Day)
    ensures IsWorkday(WeekdayOf(d)) <==> 1 <= DayIndex(d) <= 5
    ensures WeekdayOf(d) == Monday <==> DayIndex(d) == 1
  {
  }

  /** date-fns `startOfWeek(d, { weekStartsOn })`: steps back by the difference
      between the day's weekday index and `weekStartsOn`, adding a week when the
      index is the smaller. The result is the last day on or before `d` whose
      weekday index is `weekStartsOn`. */
  function StartOfWeek(d: Day, weekStartsOn: nat): (r: Day)
    requires weekStartsOn < 7
    ensures DayIndex(r) == weekStartsOn
    ensures r <= d < r + 7
  {
    var day := DayIndex(d);
    var diff := (if day < weekStartsOn then 7 else 0) + day - weekStartsOn;
    DayIndexShift(d, -diff);
    d - diff
  }
}
