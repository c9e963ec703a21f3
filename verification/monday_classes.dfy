/**
 The Monday classes page: a cart of (date, time) selections that a click
 toggles in and out, and a total cost whose Monday tier runs the other way
 from the calendar's: 25 each until four or more Mondays are in the cart,
 then 20 each.
 */
module MondayClasses {
  import opened Days

  /** `new Date(2024, 0, 8)`, the only date the page offers: 19730 days after
      1 January 1970, a Monday. */
  const MondayDate: Day := 19730

  const MondayTimes: seq<string> := ["9:00 AM", "10:00 AM", "11:00 AM", "12:00 PM", "1:00 PM", "2:00 PM"]

  const MondayBulkPrice: nat := 20
  const MondayRegularPrice: nat := 25
  const MondayBulkThreshold: nat := 4
  /** What a non-Monday selection would add to the total. */
  const OtherDayPrice: nat := 25

  /** One cart entry. Two entries match in the source when their timestamps
      and times are equal; with dates as day numbers that is equality. */
  datatype ClassSelection = ClassSelection(date: Day, time: string)

  predicate IsMondayClass(sc: ClassSelection) {
    WeekdayOf(sc.date) == Monday
  }

  /** No pair is in the cart twice. */
  predicate NoDuplicates(sel: seq<ClassSelection>) {
    forall i, j | 0 <= i < j < |sel| :: sel[i] != sel[j]
  }

  /** The position `selectedClasses.find(...)` stops at: the first entry equal
      to `pair`, or `|sel|` when there is none. */
  function FindIndex(sel: seq<ClassSelection>, pair: ClassSelection): (k: nat)
    ensures k <= |sel|
    ensures k < |sel| ==> sel[k] == pair
    ensures forall j | 0 <= j < k :: sel[j] != pair
    ensures k == |sel| <==> pair !in sel
  {
    if |sel| == 0 then 0
    else if sel[0] == pair then 0
    else 1 + FindIndex(sel[1..], pair)
  }

  /** `toggleSelection(date, time)`: if the pair is in the cart, the entry found
      (the first equal one; the removal compares objects, so it drops that one only)
      is removed and the rest keep their order; otherwise the pair is appended. */
  function ToggleSelection(sel: seq<ClassSelection>, date: Day, time: string): (r: seq<ClassSelection>)
    ensures ClassSelection(date, time) !in sel ==> r == sel + [ClassSelection(date, time)]
    ensures ClassSelection(date, time) in sel ==>
      |r| == |sel| - 1 && multiset(r) == multiset(sel) - multiset{ClassSelection(date, time)}
    ensures ClassSelection(date, time) in sel ==>
      exists k | 0 <= k < |sel| ::
        && sel[k] == ClassSelection(date, time)
        && (forall j | 0 <= j < k :: sel[j] != ClassSelection(date, time))
        && r == sel[..k] + sel[k + 1..]
  {
    var pair := ClassSelection(date, time);
    var k := FindIndex(sel, pair);
    if k < |sel| then
      assert sel == sel[..k] + [sel[k]] + sel[k + 1..];
      sel[..k] + sel[k + 1..]
    else
      sel + [pair]
  }

  /** Toggling keeps the cart free of duplicate pairs. */
  lemma ToggleKeepsNoDuplicates(sel: seq<ClassSelection>, date: Day, time: string)
    requires NoDuplicates(sel)
    ensures NoDuplicates(ToggleSelection(sel, date, time))
  {
    var pair := ClassSelection(date, time);
    var r := ToggleSelection(sel, date, time);
    if pair in sel {
      var k := FindIndex(sel, pair);
      assert r == sel[..k] + sel[k + 1..];
      forall i, j | 0 <= i < j < |r|
        ensures r[i] != r[j]
      {
        var i' := if i < k then i else i + 1;
        var j' := if j < k then j else j + 1;
        assert r[i] == sel[i'] && r[j] == sel[j'];
      }
    }
  }

  /** On a cart without duplicates a toggle flips the pair's membership and
      leaves every other pair's membership alone. */
  lemma ToggleFlipsMembership(sel: seq<ClassSelection>, date: Day, time: string)
    requires NoDuplicates(sel)
    ensures ClassSelection(date, time) in ToggleSelection(sel, date, time) <==> ClassSelection(date, time) !in sel
    ensures forall x | x != ClassSelection(date, time) :: x in ToggleSelection(sel, date, time) <==> x in sel
  {
    var pair := ClassSelection(date, time);
    var r := ToggleSelection(sel, date, time);
    if pair in sel {
      var k := FindIndex(sel, pair);
      assert r == sel[..k] + sel[k + 1..];
      assert multiset(r) == multiset(sel) - multiset{pair};
      forall i | 0 <= i < |r|
        ensures r[i] != pair
      {
        var i' := if i < k then i else i + 1;
        assert r[i] == sel[i'] && i' != k;
      }
      forall x | x != pair
        ensures x in r <==> x in sel
      {
        assert x in multiset(r) <==> x in multiset(sel);
      }
    }
  }

  /** Clicking the same slot twice, starting from a cart without it, gives the
      cart back unchanged. */
  lemma ToggleTwiceRestores(sel: seq<ClassSelection>, date: Day, time: string)
    requires ClassSelection(date, time) !in sel
    ensures ToggleSelection(ToggleSelection(sel, date, time), date, time) == sel
  {
    var pair := ClassSelection(date, time);
    var once := sel + [pair];
    assert FindIndex(once, pair) == |sel|;
    assert once[..|sel|] == sel;
  }

  /** `mondayCount`: how many selections fall on a Monday (filter, then length). */
  function MondayCount(sel: seq<ClassSelection>): (n: nat)
    ensures n <= |sel|
  {
    if |sel| == 0 then 0
    else MondayCount(sel[..|sel| - 1]) + (if IsMondayClass(sel[|sel| - 1]) then 1 else 0)
  }

  /** The count is the whole cart exactly when every selection is a Monday,
      and zero exactly when none is. */
  lemma {:induction false} MondayCountBounds(sel: seq<ClassSelection>)
    ensures MondayCount(sel) == |sel| <==> forall i | 0 <= i < |sel| :: IsMondayClass(sel[i])
    ensures MondayCount(sel) == 0 <==> forall i | 0 <= i < |sel| :: !IsMondayClass(sel[i])
    decreases |sel|
  {
    if |sel| > 0 {
      var prefix := sel[..|sel| - 1];
      MondayCountBounds(prefix);
      assert forall i | 0 <= i < |prefix| :: prefix[i] == sel[i];
    }
  }

  /** Counting distributes over joining carts. */
  lemma {:induction false} MondayCountAppend(a: seq<ClassSelection>, b: seq<ClassSelection>)
    ensures MondayCount(a + b) == MondayCount(a) + MondayCount(b)
    decreases |b|
  {
    if |b| == 0 {
      assert a + b == a;
    } else {
      assert (a + b)[..|a + b| - 1] == a + b[..|b| - 1];
      assert (a + b)[|a + b| - 1] == b[|b| - 1];
      MondayCountAppend(a, b[..|b| - 1]);
    }
  }

  lemma MondayCountSingle(x: ClassSelection)
    ensures MondayCount([x]) == if IsMondayClass(x) then 1 else 0
  {
    assert [x][..0] == [];
  }

  /** A toggle moves the Monday count by one exactly when the pair is a Monday:
      up when it is added, down when it is removed. */
  lemma ToggleMondayCount(sel: seq<ClassSelection>, date: Day, time: string)
    ensures ClassSelection(date, time) in sel ==>
      MondayCount(ToggleSelection(sel, date, time)) + (if WeekdayOf(date) == Monday then 1 else 0) == MondayCount(sel)
    ensures ClassSelection(date, time) !in sel ==>
      MondayCount(ToggleSelection(sel, date, time)) == MondayCount(sel) + (if WeekdayOf(date) == Monday then 1 else 0)
  {
    var pair := ClassSelection(date, time);
    MondayCountSingle(pair);
    if pair in sel {
      var k := FindIndex(sel, pair);
      MondayCountRemoveAt(sel, k);
    } else {
      MondayCountAppend(sel, [pair]);
    }
  }

  lemma MondayCountRemoveAt(sel: seq<ClassSelection>, k: nat)
    requires k < |sel|
    ensures MondayCount(sel[..k] + sel[k + 1..]) + MondayCount([sel[k]]) == MondayCount(sel)
  {
    var before, mid, after := sel[..k], [sel[k]], sel[k + 1..];
    assert sel == before + (mid + after);
    MondayCountAppend(mid, after);
    MondayCountAppend(before, mid + after);
    MondayCountAppend(before, after);
    assert MondayCount(before + after) + MondayCount(mid) == MondayCount(sel);
  }

  /** `getMondayPrice()`: 20 each once four or more Mondays are selected, else 25. */
  function GetMondayPrice(mondayCount: nat): (price: nat)
    ensures price == MondayBulkPrice <==> mondayCount >= MondayBulkThreshold
    ensures price == MondayRegularPrice <==> mondayCount < MondayBulkThreshold
  {
    if mondayCount >= MondayBulkThreshold then MondayBulkPrice else MondayRegularPrice
  }

  /** The `forEach` that accumulates `totalCost` over the cart in order: the
      Monday price for a Monday, 25 for any other day. The sum is the Monday
      price per Monday plus 25 per other selection. */
  function AccumulateCost(sel: seq<ClassSelection>, mondayPrice: nat): (total: nat)
    ensures total == MondayCount(sel) * mondayPrice + (|sel| - MondayCount(sel)) * OtherDayPrice
  {
    if |sel| == 0 then 0
    else
      var prefix := sel[..|sel| - 1];
      var m := MondayCount(prefix);
      assert m <= |prefix|;
      assert (m + 1) * mondayPrice == m * mondayPrice + mondayPrice;
      assert (|prefix| + 1 - m) * OtherDayPrice == (|prefix| - m) * OtherDayPrice + OtherDayPrice;
      AccumulateCost(prefix, mondayPrice)
        + (if IsMondayClass(sel[|sel| - 1]) then mondayPrice else OtherDayPrice)
  }

  /** `totalCost` of the cart: with four or more Mondays each Monday costs 20,
      with fewer each costs 25; any other day costs 25. */
  function TotalCost(sel: seq<ClassSelection>): (total: nat)
    ensures MondayCount(sel) >= MondayBulkThreshold ==>
      total == MondayBulkPrice * MondayCount(sel) + OtherDayPrice * (|sel| - MondayCount(sel))
    ensures MondayCount(sel) < MondayBulkThreshold ==> total == MondayRegularPrice * |sel|
  {
    AccumulateCost(sel, GetMondayPrice(MondayCount(sel)))
  }

  /** The cart the page can build: every entry on `mondayDate`, at one of the
      six Monday times, no pair twice. */
  predicate PageReachable(sel: seq<ClassSelection>) {
    && NoDuplicates(sel)
    && forall i | 0 <= i < |sel| :: sel[i].date == MondayDate && sel[i].time in MondayTimes
  }

  /** The empty cart is reachable, and a click on a time button keeps the cart
      reachable. */
  lemma ClickKeepsPageReachable(sel: seq<ClassSelection>, time: string)
    requires PageReachable(sel)
    requires time in MondayTimes
    ensures PageReachable([])
    ensures PageReachable(ToggleSelection(sel, MondayDate, time))
  {
    ToggleKeepsNoDuplicates(sel, MondayDate, time);
    var r := ToggleSelection(sel, MondayDate, time);
    if ClassSelection(MondayDate, time) in sel {
      forall i | 0 <= i < |r|
        ensures r[i].date == MondayDate && r[i].time in MondayTimes
      {
        assert r[i] in multiset(sel);
      }
    }
  }

  /** Every cart the page can build is all Mondays, so its total is 20 per
      class once there are four or more, and 25 per class before that. */
  lemma PageTotal(sel: seq<ClassSelection>)
    requires forall i | 0 <= i < |sel| :: sel[i].date == MondayDate
    ensures |sel| >= MondayBulkThreshold ==> TotalCost(sel) == MondayBulkPrice * |sel|
    ensures |sel| < MondayBulkThreshold ==> TotalCost(sel) == MondayRegularPrice * |sel|
  {
    assert WeekdayOf(MondayDate) == Monday;
    MondayCountBounds(sel);
  }
  /** A cart without duplicates, all on one date and drawn from a set of
      times, holds at most one entry per time. */
  lemma {:induction false} DistinctTimesBound(sel: seq<ClassSelection>, date: Day, times: set<string>)
    requires NoDuplicates(sel)
    requires forall i | 0 <= i < |sel| :: sel[i].date == date && sel[i].time in times
    ensures |sel| <= |times|
    decreases |sel|
  {
    if |sel| > 0 {
      var last := sel[|sel| - 1];
      var prefix := sel[..|sel| - 1];
      forall i | 0 <= i < |prefix|
        ensures prefix[i].date == date && prefix[i].time in times - {last.time}
      {
        assert prefix[i] == sel[i] && sel[i] != last;
      }
      DistinctTimesBound(prefix, date, times - {last.time});
    }
  }

  /** The page offers six buttons on one date, so a cart it builds holds at
      most six classes and never costs more than 6 x 20 = 120. */
  lemma PageCartAtMostSix(sel: seq<ClassSelection>)
    requires PageReachable(sel)
    ensures |sel| <= |MondayTimes|
    ensures TotalCost(sel) <= MondayBulkPrice * |MondayTimes|
  {
    var times := set t | t in MondayTimes;
    assert times == {"9:00 AM", "10:00 AM", "11:00 AM", "12:00 PM", "1:00 PM", "2:00 PM"};
    DistinctTimesBound(sel, MondayDate, times);
    PageTotal(sel);
  }
}
