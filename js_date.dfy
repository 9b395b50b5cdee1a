/**
 * The calendar arithmetic of the JavaScript `Date` object that the mini
 * calendar relies on: civil dates with a zero-based month, the day number of
 * a date, the weekday (`getDay`), and the normalisation that turns an
 * out-of-range day of the month into an earlier or later date.
 */
module JsDate {
  /** A date as `getFullYear()`, `getMonth()` (0..11) and `getDate()` read it. */
  datatype Civil = Civil(year: int, month: int, day: int)

  predicate Leap(y: int) {
    y % 4 == 0 && (y % 100 != 0 || y % 400 == 0)
  }

  function DaysInMonth(y: int, m: int): (n: int)
    ensures 28 <= n <= 31
  {
    if m == 1 then (if Leap(y) then 29 else 28)
    else if m == 3 || m == 5 || m == 8 || m == 10 then 30
    else 31
  }

  predicate ValidDate(d: Civil) {
    0 <= d.month <= 11 && 1 <= d.day <= DaysInMonth(d.year, d.month)
  }

  /** Days from 1 March of year 0 to 1 March of year `y`. */
  function YearBase(y: int): int {
    365 * y + y / 4 - y / 100 + y / 400
  }

  /** Days from 1 March to the first of month `m` (0-based from January) in the same March-based year. */
  function MonthOffset(m: int): int {
    if m == 0 then 306 else if m == 1 then 337 else if m == 2 then 0 else if m == 3 then 31
    else if m == 4 then 61 else if m == 5 then 92 else if m == 6 then 122 else if m == 7 then 153
    else if m == 8 then 184 else if m == 9 then 214 else if m == 10 then 245 else 275
  }

  /**
   * Days since 1970-01-01 in the proleptic Gregorian calendar, counting each
   * year from March so that the leap day comes last.
   */
  function DayNumber(d: Civil): int {
    var y := if d.month <= 1 then d.year - 1 else d.year;
    YearBase(y) + MonthOffset(d.month) + d.day - 1 - 719468
  }

  /** `getDay()`: 0 is Sunday; 1970-01-01 was a Thursday. */
  function Weekday(d: Civil): (w: int)
    ensures 0 <= w < 7
  {
    (DayNumber(d) + 4) % 7
  }

  /** The day after `d`. */
  function NextDay(d: Civil): Civil {
    if d.day < DaysInMonth(d.year, d.month) then d.(day := d.day + 1)
    else if d.month < 11 then Civil(d.year, d.month + 1, 1)
    else Civil(d.year + 1, 0, 1)
  }

  /** The day before `d`. */
  function PrevDay(d: Civil): Civil {
    if d.day > 1 then d.(day := d.day - 1)
    else if d.month > 0 then Civil(d.year, d.month - 1, DaysInMonth(d.year, d.month - 1))
    else Civil(d.year - 1, 11, 31)
  }

  /** `setDate(getDate() + n)`: the date `n` days later. */
  function AddDays(d: Civil, n: nat): Civil {
    if n == 0 then d else NextDay(AddDays(d, n - 1))
  }

  /** `new Date(y, m, day - n)` for a valid date: the date `n` days earlier. */
  function SubDays(d: Civil, n: nat): Civil {
    if n == 0 then d else PrevDay(SubDays(d, n - 1))
  }

  // ----- day numbers -----

  /** `x/k - (x-1)/k` is 1 exactly when `k` divides `x`. */
  lemma DivStep(x: int, k: int)
    requires k == 4 || k == 100 || k == 400
    ensures x / k - (x - 1) / k == if x % k == 0 then 1 else 0
  {
    if k == 4 {
    } else if k == 100 {
    } else {
    }
  }

  lemma DivisibleChain(y: int)
    ensures y % 400 == 0 ==> y % 100 == 0
    ensures y % 100 == 0 ==> y % 4 == 0
  {
    if y % 400 == 0 {
      var q := y / 400;
      assert y == 100 * (4 * q);
    }
    if y % 100 == 0 {
      var q := y / 100;
      assert y == 4 * (25 * q);
    }
  }

  /** The year counted from March grows by 366 days after a leap February, 365 otherwise. */
  lemma YearLength(y: int)
    ensures YearBase(y) - YearBase(y - 1) == if Leap(y) then 366 else 365
  {
    DivStep(y, 4);
    DivStep(y, 100);
    DivStep(y, 400);
    DivisibleChain(y);
  }

  /** The next day's number is one more. */
  lemma NextDayNumber(d: Civil)
    requires ValidDate(d)
    ensures ValidDate(NextDay(d))
    ensures DayNumber(NextDay(d)) == DayNumber(d) + 1
  {
    if d.day < DaysInMonth(d.year, d.month) {
    } else if d.month == 1 {
      YearLength(d.year);
    } else if d.month < 11 {
      MonthStep(d.year, d.month);
    } else {
    }
  }

  /** Across a month boundary inside a March-based year, the day number goes up by one. */
  lemma MonthStep(y: int, m: int)
    requires 0 <= m < 11 && m != 1
    ensures DayNumber(Civil(y, m + 1, 1)) == DayNumber(Civil(y, m, DaysInMonth(y, m))) + 1
  {
    if m == 0 {} else if m == 2 {} else if m == 3 {} else if m == 4 {} else if m == 5 {}
    else if m == 6 {} else if m == 7 {} else if m == 8 {} else if m == 9 {} else {}
  }

  /** The day before a valid date is valid, and the day after it is the date again. */
  lemma PrevDayInverse(d: Civil)
    requires ValidDate(d)
    ensures ValidDate(PrevDay(d))
    ensures NextDay(PrevDay(d)) == d
  {
  }

  lemma {:induction false} AddDaysNumber(d: Civil, n: nat)
    requires ValidDate(d)
    ensures ValidDate(AddDays(d, n))
    ensures DayNumber(AddDays(d, n)) == DayNumber(d) + n
  {
    if n > 0 {
      AddDaysNumber(d, n - 1);
      NextDayNumber(AddDays(d, n - 1));
    }
  }

  lemma {:induction false} SubDaysValid(d: Civil, n: nat)
    requires ValidDate(d)
    ensures ValidDate(SubDays(d, n))
  {
    if n > 0 {
      SubDaysValid(d, n - 1);
      PrevDayInverse(SubDays(d, n - 1));
    }
  }

  /** Going forward one day first and then `n - 1` days is going forward `n` days. */
  lemma {:induction false} AddDaysFront(d: Civil, n: nat)
    requires n > 0
    ensures AddDays(d, n) == AddDays(NextDay(d), n - 1)
  {
    if n > 1 {
      AddDaysFront(d, n - 1);
    }
  }

  lemma {:induction false} AddDaysAdd(d: Civil, a: nat, b: nat)
    ensures AddDays(d, a + b) == AddDays(AddDays(d, a), b)
  {
    if b > 0 {
      AddDaysAdd(d, a, b - 1);
    }
  }

  /** Going back `n` days and forward `n` days returns to the date. */
  lemma {:induction false} SubThenAdd(d: Civil, n: nat)
    requires ValidDate(d)
    ensures AddDays(SubDays(d, n), n) == d
  {
    if n > 0 {
      var s := SubDays(d, n - 1);
      SubDaysValid(d, n - 1);
      PrevDayInverse(s);
      AddDaysFront(PrevDay(s), n);
      SubThenAdd(d, n - 1);
    }
  }

  lemma {:induction false} SubDaysNumber(d: Civil, n: nat)
    requires ValidDate(d)
    ensures DayNumber(SubDays(d, n)) == DayNumber(d) - n
  {
    SubDaysValid(d, n);
    SubThenAdd(d, n);
    AddDaysNumber(SubDays(d, n), n);
  }

  /** Walking through a month from its first day meets each of its days in turn. */
  lemma {:induction false} WalkMonth(y: int, m: int, k: nat)
    requires 0 <= m <= 11 && 1 <= k <= DaysInMonth(y, m)
    ensures AddDays(Civil(y, m, 1), k - 1) == Civil(y, m, k)
  {
    if k > 1 {
      WalkMonth(y, m, k - 1);
    }
  }

  /** Days counted back to the Sunday on or before `d` land on a Sunday. */
  lemma BackToSunday(d: Civil)
    requires ValidDate(d)
    ensures Weekday(SubDays(d, Weekday(d))) == 0
  {
    var s := Weekday(d);
    SubDaysNumber(d, s);
    MinusOwnRemainder(DayNumber(d) + 4);
  }

  lemma MinusOwnRemainder(a: int)
    ensures (a - a % 7) % 7 == 0
  {
  }
}
