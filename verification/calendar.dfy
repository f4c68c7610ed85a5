/**
  The outfit calendar (components/TryOn.tsx): the six-week month grid, month stepping,
  and the per-date outfit assignments. Dates are integer (year, month 0..11, day) on the
  proleptic Gregorian calendar; weekday 0 is Sunday.
*/
module Calendar {
  import opened Wrappers
  import opened Types
  import Seqs

  datatype Date = Date(year: int, month: int, day: int)

  predicate IsLeap(y: int) {
    y % 4 == 0 && (y % 100 != 0 || y % 400 == 0)
  }

  /** The number of days of month `m` (0 = January) of year `y`. */
  function DaysInMonth(y: int, m: int): (n: int)
    requires 0 <= m < 12
    ensures 28 <= n <= 31
    ensures m == 1 ==> (n == 29 <==> IsLeap(y))
  {
    if m == 1 then (if IsLeap(y) then 29 else 28)
    else if m == 3 || m == 5 || m == 8 || m == 10 then 30
    else 31
  }

  predicate Valid(d: Date) {
    0 <= d.month < 12 && 1 <= d.day <= DaysInMonth(d.year, d.month)
  }

  function YearLength(y: int): int {
    if IsLeap(y) then 366 else 365
  }

  /** Days from 1 January of year 1 to 1 January of year `y`. */
  function DaysBeforeYear(y: int): int
    decreases if y >= 1 then y - 1 else 1 - y
  {
    if y == 1 then 0
    else if y > 1 then DaysBeforeYear(y - 1) + YearLength(y - 1)
    else DaysBeforeYear(y + 1) - YearLength(y)
  }

  /** Days from 1 January to the first of month `m` in year `y`. */
  function DaysBeforeMonth(y: int, m: int): int
    requires 0 <= m < 12
  {
    [0, 31, 59, 90, 120, 151, 181, 212, 243, 273, 304, 334][m] + (if m >= 2 && IsLeap(y) then 1 else 0)
  }

  /** The months' lengths add up: the next month starts where this one ends, and December ends the year. */
  lemma MonthStep(y: int, m: int)
    requires 0 <= m < 12
    ensures m < 11 ==> DaysBeforeMonth(y, m + 1) == DaysBeforeMonth(y, m) + DaysInMonth(y, m)
    ensures m == 11 ==> DaysBeforeMonth(y, m) + DaysInMonth(y, m) == YearLength(y)
  {
  }

  /** Days since 1 January of year 1. */
  function DayNumber(d: Date): int
    requires 0 <= d.month < 12
  {
    DaysBeforeYear(d.year) + DaysBeforeMonth(d.year, d.month) + d.day - 1
  }

  /** `getDay()`: 0 for Sunday; 1 January of year 1 was a Monday. */
  function Weekday(d: Date): (w: int)
    requires 0 <= d.month < 12
    ensures 0 <= w < 7
  {
    (DayNumber(d) + 1) % 7
  }

  /** The day after `d`. */
  function NextDay(d: Date): (r: Date)
    requires Valid(d)
    ensures Valid(r)
  {
    if d.day < DaysInMonth(d.year, d.month) then d.(day := d.day + 1)
    else if d.month < 11 then Date(d.year, d.month + 1, 1)
    else Date(d.year + 1, 0, 1)
  }

  lemma YearStep(y: int)
    ensures DaysBeforeYear(y + 1) == DaysBeforeYear(y) + YearLength(y)
  {
  }

  /** Adding a multiple of 7 does not change the weekday. */
  lemma ModShift(k: int, i: int)
    ensures (7 * k + i) % 7 == i % 7
  {
  }

  /** The day after is one day later, so its weekday is the next one. */
  lemma NextDayIsNext(d: Date)
    requires Valid(d)
    ensures DayNumber(NextDay(d)) == DayNumber(d) + 1
    ensures Weekday(NextDay(d)) == (Weekday(d) + 1) % 7
  {
    MonthStep(d.year, d.month);
    if d.day == DaysInMonth(d.year, d.month) && d.month == 11 {
      YearStep(d.year);
    }
    var a := DayNumber(d) + 1;
    ModShift(a / 7, a % 7 + 1);
  }

  /** The year and month (0..11) `k` months away from `y`/`m`; the year rolls over. */
  function AddMonths(y: int, m: int, k: int): (r: (int, int))
    requires 0 <= m < 12
    ensures 0 <= r.1 < 12
    ensures 12 * r.0 + r.1 == 12 * y + m + k
  {
    (y + (m + k) / 12, (m + k) % 12)
  }

  /** `changeMonth(k)`: the first day of the month `k` months away. */
  function ChangeMonth(d: Date, k: int): (r: Date)
    requires 0 <= d.month < 12
    ensures Valid(r) && r.day == 1
    ensures 12 * r.year + r.month == 12 * d.year + d.month + k
  {
    var ym := AddMonths(d.year, d.month, k);
    Date(ym.0, ym.1, 1)
  }

  /** Stepping forward and back again returns to the first of the starting month. */
  lemma ChangeMonthBack(d: Date, k: int)
    requires 0 <= d.month < 12
    ensures ChangeMonth(ChangeMonth(d, k), -k) == Date(d.year, d.month, 1)
  {
    var r := ChangeMonth(ChangeMonth(d, k), -k);
    assert 12 * r.year + r.month == 12 * d.year + d.month;
  }

  // ---------------------------------------------------------------------------
  // The month grid

  /** One grid cell: a date and whether it belongs to the displayed month. */
  datatype Cell = Cell(date: Date, currentMonth: bool)

  const GridSize: int := 42

  /** The number of leading cells from the previous month: the first's weekday. */
  function StartOffset(y: int, m: int): (off: int)
    requires 0 <= m < 12
    ensures 0 <= off < 7
  {
    Weekday(Date(y, m, 1))
  }

  /** The month before `y`/`m`, as `new Date(y, m, 0)` resolves it. */
  function PrevMonth(y: int, m: int): (r: (int, int))
    requires 0 <= m < 12
    ensures 0 <= r.1 < 12 && 12 * r.0 + r.1 == 12 * y + m - 1
  {
    if m == 0 then (y - 1, 11) else (y, m - 1)
  }

  /** The month after `y`/`m`, as `new Date(y, m + 1, k)` resolves it. */
  function NextMonth(y: int, m: int): (r: (int, int))
    requires 0 <= m < 12
    ensures 0 <= r.1 < 12 && 12 * r.0 + r.1 == 12 * y + m + 1
  {
    if m == 11 then (y + 1, 0) else (y, m + 1)
  }

  /** The date in cell `i` of the grid for `y`/`m` when the month starts in column `off`. */
  function GridDateAt(y: int, m: int, off: int, i: int): (d: Date)
    requires 0 <= m < 12 && 0 <= off < 7 && 0 <= i < GridSize
    ensures Valid(d)
  {
    var last := DaysInMonth(y, m);
    if i < off then
      var p := PrevMonth(y, m);
      Date(p.0, p.1, DaysInMonth(p.0, p.1) - off + i + 1)
    else if i < off + last then Date(y, m, i - off + 1)
    else
      var n := NextMonth(y, m);
      Date(n.0, n.1, i - off - last + 1)
  }

  /** The date shown in cell `i` of the grid for `y`/`m`. */
  function GridDate(y: int, m: int, i: int): (d: Date)
    requires 0 <= m < 12 && 0 <= i < GridSize
    ensures Valid(d)
  {
    GridDateAt(y, m, StartOffset(y, m), i)
  }

  /** Consecutive cells hold consecutive days. */
  lemma GridConsecutive(y: int, m: int, off: int, i: int)
    requires 0 <= m < 12 && 0 <= off < 7 && 0 <= i < GridSize - 1
    ensures NextDay(GridDateAt(y, m, off, i)) == GridDateAt(y, m, off, i + 1)
  {
    var last := DaysInMonth(y, m);
    if i == off - 1 {
      var p := PrevMonth(y, m);
      assert NextMonth(p.0, p.1) == (y, m);
    } else if i >= off + last {
      var n := NextMonth(y, m);
      assert i - off - last + 1 < DaysInMonth(n.0, n.1);
    }
  }

  /** Cell `i` lies `i - off` days after the first of the month. */
  lemma {:induction false} GridDayNumber(y: int, m: int, off: int, i: int)
    requires 0 <= m < 12 && 0 <= off < 7 && 0 <= i < GridSize
    ensures DayNumber(GridDateAt(y, m, off, i)) == DayNumber(Date(y, m, 1)) - off + i
    decreases if i < off then off - i else i - off
  {
    if i < off {
      GridDayNumber(y, m, off, i + 1);
      GridConsecutive(y, m, off, i);
      NextDayIsNext(GridDateAt(y, m, off, i));
    } else if i > off {
      GridDayNumber(y, m, off, i - 1);
      GridConsecutive(y, m, off, i - 1);
      NextDayIsNext(GridDateAt(y, m, off, i - 1));
    }
  }

  /** Every column is one weekday: cell `i` falls on weekday `i % 7`. */
  lemma GridWeekday(y: int, m: int, i: int)
    requires 0 <= m < 12 && 0 <= i < GridSize
    ensures Weekday(GridDate(y, m, i)) == i % 7
  {
    var off := StartOffset(y, m);
    GridDayNumber(y, m, off, i);
    var a := DayNumber(Date(y, m, 1)) + 1;
    assert off == a % 7;
    ModShift(a / 7, i);
  }

  /**
    `daysInMonth`: the previous month's tail, the month's days, then the next month's
    first days up to six full weeks.
  */
  method MonthGrid(y: int, m: int) returns (days: seq<Cell>)
    requires 0 <= m < 12
    ensures |days| == GridSize
    ensures forall i :: 0 <= i < GridSize ==> days[i].date == GridDate(y, m, i)
    ensures forall i :: 0 <= i < GridSize ==>
      (days[i].currentMonth <==> StartOffset(y, m) <= i < StartOffset(y, m) + DaysInMonth(y, m))
  {
    var off := StartOffset(y, m);
    var last := DaysInMonth(y, m);
    var prev := PrevMonth(y, m);
    var next := NextMonth(y, m);
    days := [];
    for i := 0 to off
      invariant |days| == i
      invariant forall j :: 0 <= j < i ==> days[j] == Cell(GridDate(y, m, j), false)
    {
      days := days + [Cell(Date(prev.0, prev.1, DaysInMonth(prev.0, prev.1) - off + i + 1), false)];
    }
    for i := 1 to last + 1
      invariant |days| == off + i - 1
      invariant forall j :: 0 <= j < off ==> days[j] == Cell(GridDate(y, m, j), false)
      invariant forall j :: off <= j < |days| ==> days[j] == Cell(GridDate(y, m, j), true)
    {
      days := days + [Cell(Date(y, m, i), true)];
    }
    while |days| < GridSize
      invariant off + last <= |days| <= GridSize
      invariant forall j :: 0 <= j < |days| ==>
        days[j] == Cell(GridDate(y, m, j), off <= j < off + last)
      decreases GridSize - |days|
    {
      var d := Date(next.0, next.1, |days| - (off + last) + 1);
      days := days + [Cell(d, false)];
    }
  }

  // ---------------------------------------------------------------------------
  // Outfit assignments

  /** `handleSelectOutfit`: the selected date now maps to the outfit. */
  function AssignOutfit(cal: CalendarMap, date: string, outfitId: string): (r: CalendarMap)
    ensures date in r && r[date] == outfitId
    ensures forall k :: k != date ==> (k in r <==> k in cal) && (k in cal ==> r[k] == cal[k])
  {
    cal[date := outfitId]
  }

  /** `removeOutfitFromDay`: the selected date no longer maps to anything. */
  function RemoveOutfit(cal: CalendarMap, date: string): (r: CalendarMap)
    ensures date !in r
    ensures forall k :: k != date ==> (k in r <==> k in cal) && (k in cal ==> r[k] == cal[k])
  {
    cal - {date}
  }

  /** The first outfit with the given id. */
  function FindOutfit(outfits: seq<Outfit>, id: string): (r: Option<nat>)
    ensures r.Some? ==> r.value < |outfits| && outfits[r.value].id == id
    ensures r.Some? ==> forall j :: 0 <= j < r.value ==> outfits[j].id != id
    ensures r.None? <==> forall j :: 0 <= j < |outfits| ==> outfits[j].id != id
  {
    if outfits == [] then None
    else if outfits[0].id == id then Some(0)
    else match FindOutfit(outfits[1..], id) {
      case None => None
      case Some(k) => Some(k + 1)
    }
  }

  /** `selectedOutfit`: the first outfit whose id the date maps to, if any. */
  function SelectedOutfit(outfits: seq<Outfit>, cal: CalendarMap, date: string): (r: Option<Outfit>)
    ensures date !in cal ==> r.None?
    ensures date in cal ==>
      (r.None? <==> forall j :: 0 <= j < |outfits| ==> outfits[j].id != cal[date])
    ensures r.Some? ==> date in cal && r.value.id == cal[date] && r.value in outfits
  {
    if date !in cal then None
    else match FindOutfit(outfits, cal[date]) {
      case None => None
      case Some(k) => Some(outfits[k])
    }
  }

  /** Assigning an outfit of the gallery to a date makes it that date's outfit (ids are unique). */
  lemma AssignThenSelect(outfits: seq<Outfit>, cal: CalendarMap, date: string, k: nat)
    requires k < |outfits|
    requires forall i, j :: 0 <= i < j < |outfits| ==> outfits[i].id != outfits[j].id
    ensures SelectedOutfit(outfits, AssignOutfit(cal, date, outfits[k].id), date) == Some(outfits[k])
  {
    var f := FindOutfit(outfits, outfits[k].id);
    assert f.Some?;
    assert f.value == k;
  }

  /** After removal the date shows no outfit. */
  lemma RemoveThenSelect(outfits: seq<Outfit>, cal: CalendarMap, date: string)
    ensures SelectedOutfit(outfits, RemoveOutfit(cal, date), date).None?
  {
  }

  /**
    Deleting an outfit from the gallery leaves the calendar entry in place but dangling:
    the date still has a key, and shows no outfit.
  */
  lemma DeleteLeavesDangling(outfits: seq<Outfit>, cal: CalendarMap, date: string)
    requires date in cal
    ensures date in cal
    ensures SelectedOutfit(Seqs.RemoveById(outfits, OutfitId, cal[date]), cal, date).None?
  {
  }
}
