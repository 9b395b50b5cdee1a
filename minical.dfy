/**
 * The mini calendar of `minical.js`: its view month and selected day, the
 * 42-day grid it draws, the ISO text of a day, the month names, and the
 * session-count badges.
 */
module MiniCal {
  import opened Common
  import Text
  import opened JsDate

  // ----- formatting -----

  /** `_iso(d)`: `YYYY-MM-DD` with the month counted from 1, month and day padded to two digits. */
  function Iso(d: Civil): (s: string)
    requires ValidDate(d)
    ensures |s| >= 7 && s[|s| - 6] == '-' && s[|s| - 3] == '-'
  {
    Text.Pad2RoundTrip(d.month + 1);
    Text.Pad2RoundTrip(d.day);
    Text.IntToString(d.year) + "-" + Text.Pad2(d.month + 1) + "-" + Text.Pad2(d.day)
  }

  /**
   * `new Date(iso)` on the date-only form of the ECMAScript date time string
   * format (section 21.4.1.32 of ECMA-262): four-digit year, month, day; an
   * illegal value gives an invalid date (`None`).
   */
  function ParseIsoDate(s: string): (r: Option<Civil>)
    ensures r.Some? ==> ValidDate(r.value)
  {
    if |s| != 10 || s[4] != '-' || s[7] != '-' then None
    else
      var yp := s[..4];
      var mp := s[5..7];
      var dp := s[8..];
      if !Text.AllDigits(yp) || !Text.AllDigits(mp) || !Text.AllDigits(dp) then None
      else
        var c := Civil(Text.DigitsValue(yp), Text.DigitsValue(mp) - 1, Text.DigitsValue(dp));
        if ValidDate(c) then Some(c) else None
  }

  lemma NatToStringFour(n: nat)
    requires 1000 <= n <= 9999
    ensures |Text.NatToString(n)| == 4
  {
    var a, b, c := n / 10, n / 100, n / 1000;
    assert a / 10 == b && b / 10 == c;
    assert |Text.NatToString(c)| == 1;
    assert |Text.NatToString(b)| == |Text.NatToString(c)| + 1;
    assert |Text.NatToString(a)| == |Text.NatToString(b)| + 1;
  }

  /** Reading back the text of a day with a four-digit year gives that day. */
  lemma IsoRoundTrip(d: Civil)
    requires ValidDate(d) && 1000 <= d.year <= 9999
    ensures ParseIsoDate(Iso(d)) == Some(d)
  {
    var y := Text.NatToString(d.year);
    var mm := Text.Pad2(d.month + 1);
    var dd := Text.Pad2(d.day);
    NatToStringFour(d.year);
    Text.NatToStringRoundTrip(d.year);
    Text.Pad2RoundTrip(d.month + 1);
    Text.Pad2RoundTrip(d.day);
    var s := Iso(d);
    assert s == y + "-" + mm + "-" + dd;
    assert s[..4] == y;
    assert s[5..7] == mm;
    assert s[8..] == dd;
  }

  /** Different days have different texts. */
  lemma IsoInjective(a: Civil, b: Civil)
    requires ValidDate(a) && 1000 <= a.year <= 9999
    requires ValidDate(b) && 1000 <= b.year <= 9999
    requires Iso(a) == Iso(b)
    ensures a == b
  {
    IsoRoundTrip(a);
    IsoRoundTrip(b);
  }

  /** `_m(m)`: the Thai short month name, "" outside 0..11. */
  function MonthLabel(m: int): (r: string)
    ensures r == "" <==> !(0 <= m <= 11)
  {
    if m == 0 then "ม.ค." else if m == 1 then "ก.พ." else if m == 2 then "มี.ค."
    else if m == 3 then "เม.ย." else if m == 4 then "พ.ค." else if m == 5 then "มิ.ย."
    else if m == 6 then "ก.ค." else if m == 7 then "ส.ค." else if m == 8 then "ก.ย."
    else if m == 9 then "ต.ค." else if m == 10 then "พ.ย." else if m == 11 then "ธ.ค."
    else ""
  }

  /** What `getSessionsByDate()[iso]` holds for a day: something that is not an array, or a list of sessions. */
  datatype SessionsEntry = NotArray | Sessions(count: nat)

  /** The badge of `_marks`: none for no entry, a non-array or an empty list; "99+" above 99; the count otherwise. */
  function Badge(entry: Option<SessionsEntry>): (r: Option<string>)
    ensures r.Some? <==> entry.Some? && entry.value.Sessions? && entry.value.count > 0
    ensures r == Some("99+") <==> entry.Some? && entry.value.Sessions? && entry.value.count > 99
    ensures r.Some? && r != Some("99+") ==>
              Text.AllDigits(r.value) && Text.DigitsValue(r.value) == entry.value.count <= 99
  {
    match entry
    case None => None
    case Some(NotArray) => None
    case Some(Sessions(n)) =>
      if n == 0 then None
      else if n > 99 then Some("99+")
      else
        Text.NatToStringRoundTrip(n);
        assert !Text.IsDigit('+');
        Some(Text.NatToString(n))
  }

  /** The badges of the cells, in cell order; with no sessions source (`|| {}`) there are none. */
  function Marks(isos: seq<string>, byDate: Option<map<string, SessionsEntry>>): (r: seq<Option<string>>)
    ensures |r| == |isos|
    ensures byDate.None? ==> forall i :: 0 <= i < |r| ==> r[i].None?
    ensures byDate.Some? ==> forall i :: 0 <= i < |r| ==>
              r[i] == Badge(if isos[i] in byDate.value then Some(byDate.value[isos[i]]) else None)
  {
    var m := byDate.GetOr(map[]);
    seq(|isos|, i requires 0 <= i < |isos| => Badge(if isos[i] in m then Some(m[isos[i]]) else None))
  }

  // ----- the month grid -----

  datatype Cell = Cell(date: Civil, inMonth: bool)

  /**
   * The year `new Date(y, m, d)` builds (MakeFullYear, section 21.4.2.1 of
   * ECMA-262): a year from 0 to 99 is read as 1900 + y, any other is kept.
   */
  function FullYear(y: int): (r: int)
    ensures 0 <= y <= 99 ==> r == 1900 + y
    ensures !(0 <= y <= 99) ==> r == y
    ensures !(0 <= r <= 99)
  {
    if 0 <= y <= 99 then 1900 + y else y
  }

  /**
   * `_grid(y, m)`: 42 consecutive days from the Sunday on or before the
   * first of the month, each marked with whether it lies in month `m`. The
   * month is the one of year `FullYear(y)`, so a view year from 0 to 99
   * draws the month of 1900 + y.
   */
  method Grid(y: int, m: int) returns (cells: seq<Cell>)
    requires 0 <= m <= 11
    ensures |cells| == 42
    ensures var first := Civil(FullYear(y), m, 1);
            cells[0].date == SubDays(first, Weekday(first)) && Weekday(cells[0].date) == 0
            && cells[Weekday(first)].date == first
    ensures forall i :: 0 <= i < 42 ==>
              cells[i].date == AddDays(cells[0].date, i) && ValidDate(cells[i].date)
              && DayNumber(cells[i].date) == DayNumber(cells[0].date) + i
    ensures forall i :: 0 <= i < 42 ==> cells[i].inMonth == (cells[i].date.month == m)
    ensures forall k :: 1 <= k <= DaysInMonth(FullYear(y), m) ==>
              cells[Weekday(Civil(FullYear(y), m, 1)) + k - 1].date == Civil(FullYear(y), m, k)
  {
    var year := FullYear(y);
    var first := Civil(year, m, 1);
    var start := SubDays(first, Weekday(first));
    cells := [];
    for i := 0 to 42
      invariant |cells| == i
      invariant forall j :: 0 <= j < i ==> cells[j] == Cell(AddDays(start, j), AddDays(start, j).month == m)
    {
      var d := AddDays(start, i);
      cells := cells + [Cell(d, d.month == m)];
    }
    GridDays(year, m);
  }

  /** The days the grid walks through, counted from the Sunday on or before the first of the month. */
  lemma GridDays(y: int, m: int)
    requires 0 <= m <= 11
    ensures var first := Civil(y, m, 1);
            var s := Weekday(first);
            var start := SubDays(first, s);
            Weekday(start) == 0 && AddDays(start, 0) == start && AddDays(start, s) == first
            && (forall i :: 0 <= i < 42 ==> ValidDate(AddDays(start, i)) && DayNumber(AddDays(start, i)) == DayNumber(start) + i)
            && (forall k :: 1 <= k <= DaysInMonth(y, m) ==> AddDays(start, s + k - 1) == Civil(y, m, k))
  {
    var first := Civil(y, m, 1);
    var s := Weekday(first);
    SubDaysValid(first, s);
    ConsecutiveNumbers(SubDays(first, s));
    BackToSunday(first);
    SubThenAdd(first, s);
    MonthCovered(y, m, s);
  }

  lemma ConsecutiveNumbers(start: Civil)
    requires ValidDate(start)
    ensures forall i :: 0 <= i < 42 ==> ValidDate(AddDays(start, i)) && DayNumber(AddDays(start, i)) == DayNumber(start) + i
  {
    forall i | 0 <= i < 42
      ensures ValidDate(AddDays(start, i)) && DayNumber(AddDays(start, i)) == DayNumber(start) + i
    {
      AddDaysNumber(start, i);
    }
  }

  lemma MonthCovered(y: int, m: int, s: nat)
    requires 0 <= m <= 11
    requires AddDays(SubDays(Civil(y, m, 1), s), s) == Civil(y, m, 1)
    ensures forall k :: 1 <= k <= DaysInMonth(y, m) ==> AddDays(SubDays(Civil(y, m, 1), s), s + k - 1) == Civil(y, m, k)
  {
    var start := SubDays(Civil(y, m, 1), s);
    forall k | 1 <= k <= DaysInMonth(y, m) ensures AddDays(start, s + k - 1) == Civil(y, m, k) {
      DayOfMonthCell(y, m, start, s, k);
    }
  }

  lemma DayOfMonthCell(y: int, m: int, start: Civil, s: nat, k: nat)
    requires 0 <= m <= 11 && 1 <= k <= DaysInMonth(y, m)
    requires AddDays(start, s) == Civil(y, m, 1)
    ensures AddDays(start, s + k - 1) == Civil(y, m, k)
  {
    var j: nat := k - 1;
    AddDaysAdd(start, s, j);
    WalkMonth(y, m, k);
    assert s + k - 1 == s + j;
  }

  // ----- month navigation -----

  /** `_shift(d)`: the month moves by `d`, wrapping below 0 to 11 of the year before and above 11 to 0 of the next. */
  function ShiftView(y: int, m: int, d: int): (r: (int, int))
    requires 0 <= m <= 11
    ensures 0 <= r.1 <= 11
    ensures m + d < 0 ==> r == (y - 1, 11)
    ensures m + d > 11 ==> r == (y + 1, 0)
    ensures 0 <= m + d <= 11 ==> r == (y, m + d)
  {
    var m2 := m + d;
    if m2 < 0 then (y - 1, 11) else if m2 > 11 then (y + 1, 0) else (y, m2)
  }

  /** The buttons move one month on or back: the month count `12*y + m` changes by exactly one. */
  lemma ShiftCountsMonths(y: int, m: int, d: int)
    requires 0 <= m <= 11 && (d == 1 || d == -1)
    ensures var r := ShiftView(y, m, d); 12 * r.0 + r.1 == 12 * y + m + d
  {
  }

  /** One month on and one back (or back and on) restores the view. */
  lemma ShiftRoundTrip(y: int, m: int)
    requires 0 <= m <= 11
    ensures var r := ShiftView(y, m, 1); ShiftView(r.0, r.1, -1) == (y, m)
    ensures var r := ShiftView(y, m, -1); ShiftView(r.0, r.1, 1) == (y, m)
  {
  }

  /** The calendar's `state`. */
  class MiniCalendar {
    var viewYear: int
    var viewMonth: int
    var selected: string

    ghost predicate Valid()
      reads this
    {
      0 <= viewMonth <= 11
    }

    /** `init` on `today`: that month in view and that day selected. */
    constructor (today: Civil)
      requires ValidDate(today)
      ensures Valid()
      ensures viewYear == today.year && viewMonth == today.month && selected == Iso(today)
    {
      viewYear := today.year;
      viewMonth := today.month;
      selected := Iso(today);
    }

    /** The previous (`-1`) and next (`+1`) buttons. */
    method Shift(d: int)
      requires Valid()
      modifies this`viewYear, this`viewMonth
      ensures Valid()
      ensures (viewYear, viewMonth) == ShiftView(old(viewYear), old(viewMonth), d)
    {
      var m := viewMonth + d;
      var y := viewYear;
      if m < 0 {
        m := 11;
        y := y - 1;
      } else if m > 11 {
        m := 0;
        y := y + 1;
      }
      viewMonth := m;
      viewYear := y;
    }

    /** The today button: today's month and day, handed to `onSelectDate` when there is one. */
    method GoToday(today: Civil, hasHandler: bool) returns (emitted: Option<string>)
      requires ValidDate(today)
      modifies this`viewYear, this`viewMonth, this`selected
      ensures Valid()
      ensures viewYear == today.year && viewMonth == today.month && selected == Iso(today)
      ensures emitted == if hasHandler then Some(selected) else None
    {
      viewYear := today.year;
      viewMonth := today.month;
      selected := Iso(today);
      emitted := if hasHandler then Some(selected) else None;
    }

    /** `setSelected(iso)`: an invalid date is ignored; a valid one comes into view and is selected. */
    method SetSelected(iso: string)
      modifies this`viewYear, this`viewMonth, this`selected
      ensures ParseIsoDate(iso).None? ==> viewYear == old(viewYear) && viewMonth == old(viewMonth) && selected == old(selected)
      ensures ParseIsoDate(iso).Some? ==>
                var d := ParseIsoDate(iso).value;
                Valid() && viewYear == d.year && viewMonth == d.month && selected == Iso(d)
      ensures forall d :: ValidDate(d) && 1000 <= d.year <= 9999 && iso == Iso(d) ==>
                viewYear == d.year && viewMonth == d.month && selected == iso
    {
      var p := ParseIsoDate(iso);
      if p.Some? {
        var d := p.value;
        viewYear := d.year;
        viewMonth := d.month;
        selected := Iso(d);
      }
      forall d | ValidDate(d) && 1000 <= d.year <= 9999 && iso == Iso(d)
        ensures viewYear == d.year && viewMonth == d.month && selected == iso
      {
        IsoRoundTrip(d);
      }
    }

    /** A click on a cell (or Enter / space on it): its `data-date` becomes the selection and is emitted. */
    method ClickCell(iso: string, hasHandler: bool) returns (emitted: Option<string>)
      modifies this`selected
      ensures selected == iso
      ensures emitted == if hasHandler then Some(iso) else None
    {
      selected := iso;
      emitted := if hasHandler then Some(iso) else None;
    }
  }
}
