/** `oracle_month_add_daypreserving` of src/unique/core/mappings.py: the formula, over serial day
    numbers of the proleptic Gregorian calendar. */
module Months {

  // ----- the calendar -----

  predicate IsLeap(y: int) {
    y % 4 == 0 && (y % 100 != 0 || y % 400 == 0)
  }

  /** Serial number of 1 January; year 0 starts at 0. */
  function YearStart(y: int): int {
    365 * y + (y + 3) / 4 - (y + 99) / 100 + (y + 399) / 400
  }

  /** Days of the year before its month `m`, counted from 0. */
  function Elapsed(leap: bool, m: int): int
    requires 0 <= m <= 12
  {
    [0, 31, 59, 90, 120, 151, 181, 212, 243, 273, 304, 334, 365][m] + if leap && m >= 2 then 1 else 0
  }

  function MonthLength(leap: bool, m: int): int
    requires 0 <= m < 12
  {
    if m == 1 then (if leap then 29 else 28) else if m in {3, 5, 8, 10} then 30 else 31
  }

  /** A month of all time: 12 * year + month. */
  function Start(month: int): int {
    YearStart(month / 12) + Elapsed(IsLeap(month / 12), month % 12)
  }

  function Length(month: int): int {
    MonthLength(IsLeap(month / 12), month % 12)
  }

  lemma YearStep(y: int)
    ensures YearStart(y + 1) == YearStart(y) + (if IsLeap(y) then 366 else 365)
  {
    FourthYear(y);
    HundredthYear(y);
    FourHundredthYear(y);
    assert (y + 1 + 3) / 4 == (y + 4) / 4 && (y + 1 + 99) / 100 == (y + 100) / 100 &&
      (y + 1 + 399) / 400 == (y + 400) / 400;
    YearsInFour(y);
  }

  // The number of multiples of 4, 100 and 400 below `y`, as `y` grows by one.

  lemma FourthYear(y: int)
    ensures (y + 4) / 4 == (y + 3) / 4 + (if y % 4 == 0 then 1 else 0)
  {
  }

  lemma HundredthYear(y: int)
    ensures (y + 100) / 100 == (y + 99) / 100 + (if y % 100 == 0 then 1 else 0)
  {
  }

  lemma FourHundredthYear(y: int)
    ensures (y + 400) / 400 == (y + 399) / 400 + (if y % 400 == 0 then 1 else 0)
  {
  }

  lemma YearsInFour(y: int)
    ensures (y % 400 == 0 ==> y % 100 == 0) && (y % 100 == 0 ==> y % 4 == 0)
  {
    MultipleOf400(y / 400);
    MultipleOf100(y / 100);
  }

  lemma MultipleOf400(q: int)
    ensures 400 * q % 100 == 0
  {
  }

  lemma MultipleOf100(q: int)
    ensures 100 * q % 4 == 0
  {
  }

  /** Months follow each other without gap or overlap. */
  lemma MonthStep(month: int)
    ensures Start(month + 1) == Start(month) + Length(month)
    ensures 28 <= Length(month) <= 31
  {
    YearStep(month / 12);
    hide YearStart, IsLeap;
    if month % 12 == 11 {
      assert (month + 1) / 12 == month / 12 + 1 && (month + 1) % 12 == 0;
    } else {
      assert (month + 1) / 12 == month / 12 && (month + 1) % 12 == month % 12 + 1;
    }
  }

  lemma {:induction false} StartGrows(a: int, b: int)
    requires a <= b
    ensures Start(a) + 28 * (b - a) <= Start(b)
    decreases b - a
  {
    hide Start, Length;
    if a < b {
      MonthStep(b - 1);
      StartGrows(a, b - 1);
    }
  }

  /** A month that starts at or before the day `s`. */
  function EarlyMonth(s: int): int {
    12 * (if s >= 0 then s / 366 else s / 365)
  }

  lemma EarlyMonthIsEarly(s: int)
    ensures Start(EarlyMonth(s)) <= s
  {
    var y := EarlyMonth(s) / 12;
    assert EarlyMonth(s) % 12 == 0;
    assert s >= 0 ==> (y + 3) / 4 - (y + 99) / 100 + (y + 399) / 400 <= y;
    assert s < 0 ==> (y + 3) / 4 - (y + 99) / 100 + (y + 399) / 400 <= 0;
  }

  function MonthFrom(s: int, month: int): (r: int)
    requires Start(month) <= s
    ensures Start(r) <= s < Start(r) + Length(r)
    decreases s - Start(month)
  {
    MonthStep(month);
    if s < Start(month + 1) then month else MonthFrom(s, month + 1)
  }

  /** The month of a day: what EXTRACT reads a date's day number against. */
  function MonthOf(s: int): (r: int)
    ensures Start(r) <= s < Start(r) + Length(r)
  {
    EarlyMonthIsEarly(s);
    MonthFrom(s, EarlyMonth(s))
  }

  function DayOf(s: int): (d: int)
    ensures 1 <= d <= Length(MonthOf(s))
  {
    s - Start(MonthOf(s)) + 1
  }

  /** Decoding is the inverse of encoding: the `d`-th day of a month decodes to just that. */
  lemma DecodeEncode(month: int, d: int)
    requires 1 <= d <= Length(month)
    ensures MonthOf(Start(month) + d - 1) == month && DayOf(Start(month) + d - 1) == d
  {
    var s := Start(month) + d - 1;
    var m := MonthOf(s);
    MonthStep(m);
    MonthStep(month);
    hide Start, Length;
    if m < month {
      StartGrows(m + 1, month);
    } else if month < m {
      StartGrows(month + 1, m);
    }
  }

  // ----- dates, and the functions of the formula -----

  /** A DATE: its day and the part of that day that has passed. */
  datatype Date = Date(day: int, time: real)

  function AddMonths(x: Date, n: int): Date {
    var from, to := MonthOf(x.day), MonthOf(x.day) + n;
    var d := if DayOf(x.day) == Length(from) || DayOf(x.day) > Length(to) then Length(to) else DayOf(x.day);
    Date(Start(to) + d - 1, x.time)
  }

  function LastDay(x: Date): Date {
    var m := MonthOf(x.day);
    Date(Start(m) + Length(m) - 1, x.time)
  }

  /** DATEADD(MONTH, n, x) on T-SQL, MySQL and PostgreSQL: the day of the month is kept, or cut down
      to the length of the target month. */
  function DateAdd(x: Date, n: int): Date {
    var to := MonthOf(x.day) + n;
    Date(Start(to) + (if DayOf(x.day) <= Length(to) then DayOf(x.day) else Length(to)) - 1, x.time)
  }

  // ----- the formula -----

  datatype Expr =
    | Operand
    | Months
    | AddMonthsCall(date: Expr, months: Expr)
    | ExtractDay(date: Expr)
    | LastDayCall(date: Expr)
    | Least(a: Expr, b: Expr)
    | Minus(a: Expr, b: Expr)

  datatype Value = DateValue(date: Date) | Number(n: int) | Error

  /** `date - number` takes whole days off a date and leaves its time of day. */
  function Eval(e: Expr, operand: Date, months: int): Value {
    match e
    case Operand => DateValue(operand)
    case Months => Number(months)
    case AddMonthsCall(d, n) =>
      (match (Eval(d, operand, months), Eval(n, operand, months))
       case (DateValue(x), Number(k)) => DateValue(AddMonths(x, k))
       case _ => Error)
    case ExtractDay(d) => (match Eval(d, operand, months) case DateValue(x) => Number(DayOf(x.day)) case _ => Error)
    case LastDayCall(d) => (match Eval(d, operand, months) case DateValue(x) => DateValue(LastDay(x)) case _ => Error)
    case Least(a, b) =>
      (match (Eval(a, operand, months), Eval(b, operand, months))
       case (Number(i), Number(j)) => Number(if i <= j then i else j)
       case _ => Error)
    case Minus(a, b) =>
      (match (Eval(a, operand, months), Eval(b, operand, months))
       case (DateValue(x), Number(k)) => DateValue(Date(x.day - k, x.time))
       case (Number(i), Number(j)) => Number(i - j)
       case _ => Error)
  }

  /** `oracle_month_add_daypreserving`. */
  function DayPreserving(operand: Expr, months: Expr): Expr {
    var add := AddMonthsCall(operand, months);
    Minus(add, Minus(ExtractDay(add), Least(ExtractDay(operand), ExtractDay(LastDayCall(add)))))
  }

  lemma AddMonthsDecoded(x: Date, n: int)
    ensures var r := AddMonths(x, n); var to := MonthOf(x.day) + n;
      MonthOf(r.day) == to && DayOf(LastDay(r).day) == Length(to) &&
      DayOf(r.day) == if DayOf(x.day) == Length(MonthOf(x.day)) || DayOf(x.day) > Length(to) then Length(to)
        else DayOf(x.day)
  {
    var to := MonthOf(x.day) + n;
    MonthStep(to);
    var d := if DayOf(x.day) == Length(MonthOf(x.day)) || DayOf(x.day) > Length(to) then Length(to) else DayOf(x.day);
    hide Start, Length, MonthOf, DayOf;
    DecodeEncode(to, d);
    DecodeEncode(to, Length(to));
  }

  function Min(a: int, b: int): int {
    if a <= b then a else b
  }

  /** The formula, evaluated. */
  lemma FormulaValue(x: Date, n: int)
    ensures var r := AddMonths(x, n);
      Eval(DayPreserving(Operand, Months), x, n)
      == DateValue(Date(r.day - (DayOf(r.day) - Min(DayOf(x.day), DayOf(LastDay(r).day))), r.time))
  {
    hide Start, Length, MonthOf, DayOf, AddMonths, LastDay;
    var r := AddMonths(x, n);
    var add := AddMonthsCall(Operand, Months);
    assert Eval(Operand, x, n) == DateValue(x) && Eval(Months, x, n) == Number(n);
    assert Eval(add, x, n) == DateValue(r);
    assert Eval(LastDayCall(add), x, n) == DateValue(LastDay(r));
    var least := Least(ExtractDay(Operand), ExtractDay(LastDayCall(add)));
    assert Eval(least, x, n) == Number(Min(DayOf(x.day), DayOf(LastDay(r).day)));
    var extra := Minus(ExtractDay(add), least);
    assert Eval(extra, x, n) == Number(DayOf(r.day) - Min(DayOf(x.day), DayOf(LastDay(r).day)));
  }

  /** For every date, every time of day and every number of months, the formula on Oracle is DATEADD
      on the other engines. */
  lemma FormulaIsDateAdd(x: Date, n: int)
    ensures Eval(DayPreserving(Operand, Months), x, n) == DateValue(DateAdd(x, n))
  {
    FormulaValue(x, n);
    AddMonthsDecoded(x, n);
    hide Start, Length, MonthOf, DayOf, Eval, DayPreserving, LastDay;
  }

  /** What DATEADD promises: the target month, the day kept or cut down, the time unchanged. */
  lemma DateAddDecoded(x: Date, n: int)
    ensures var r := DateAdd(x, n); var to := MonthOf(x.day) + n;
      MonthOf(r.day) == to && r.time == x.time &&
      DayOf(r.day) == if DayOf(x.day) <= Length(to) then DayOf(x.day) else Length(to)
  {
    var to := MonthOf(x.day) + n;
    MonthStep(to);
    var d := if DayOf(x.day) <= Length(to) then DayOf(x.day) else Length(to);
    hide Start, Length, MonthOf, DayOf;
    DecodeEncode(to, d);
  }

  /** Without its correction the formula is wrong exactly on the last day of a month shorter than the
      target month. */
  lemma CorrectionNeeded(x: Date, n: int)
    ensures AddMonths(x, n) != DateAdd(x, n) <==>
      DayOf(x.day) == Length(MonthOf(x.day)) && Length(MonthOf(x.day)) < Length(MonthOf(x.day) + n)
  {
    hide Start, Length, MonthOf, DayOf;
  }

  lemma SameMonth(m: int, k: int)
    ensures (m + 12 * k) % 12 == m % 12 && (m + 12 * k) / 12 == m / 12 + k
  {
  }

  /** Whole years: 29 February goes to 28 February unless the target year is a leap year too; every
      other day keeps month and day. */
  lemma YearsLater(x: Date, k: int)
    ensures var r := DateAdd(x, 12 * k);
      MonthOf(r.day) == MonthOf(x.day) + 12 * k &&
      (DayOf(r.day) != DayOf(x.day) <==>
        MonthOf(x.day) % 12 == 1 && DayOf(x.day) == 29 && !IsLeap(MonthOf(x.day) / 12 + k))
  {
    hide Start, MonthOf, IsLeap, DateAdd;
    DateAddDecoded(x, 12 * k);
    SameMonth(MonthOf(x.day), k);
  }
}
