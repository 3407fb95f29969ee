/**
 Week arithmetic of the planner. A calendar date is an integer day number,
 day 0 being 1970-01-01, a Thursday. `Date.prototype.setDate` carries an
 out-of-range day of the month into the neighbouring month or year, so adding
 or subtracting days on a `Date` is plain integer arithmetic on day numbers.
 */
module Week {

  /** `getDay()` of day 0: 1970-01-01 was a Thursday. */
  const EpochWeekday := 4

  const Sunday := 0
  const Monday := 1

  /** Names of the weekdays indexed by `getDay()`, Sunday first. */
  const DaysOfWeek: seq<string> :=
    ["Воскресенье", "Понедельник", "Вторник", "Среда", "Четверг", "Пятница", "Суббота"]

  /** `getDay()`: 0 for Sunday through 6 for Saturday. Dafny's `%` never
      yields a negative remainder, so days before 1970 are right too. */
  function Weekday(n: int): (w: int)
    ensures 0 <= w < 7
    ensures (n + EpochWeekday - w) % 7 == 0
  {
    (n + EpochWeekday) % 7
  }

  /** Days a multiple of seven apart share their weekday; days fewer than
      seven apart do not. */
  lemma SameWeekday(a: int, b: int)
    requires a <= b < a + 7
    ensures Weekday(a) == Weekday(b) <==> a == b
  {
  }

  /** `getStartOfWeek`: the Monday on or before `n`. `getDay()` counts Sunday
      as 0, so a Sunday steps back six days to the Monday before it. */
  function StartOfWeek(n: int): (s: int)
    ensures Weekday(s) == Monday
    ensures s <= n <= s + 6
  {
    var day := Weekday(n);
    n - day + (if day == Sunday then -6 else 1)
  }

  /** The Monday-to-Sunday week holding `n` has exactly one start: any Monday
      at most six days before `n` is `StartOfWeek(n)`. */
  lemma StartOfWeekUnique(n: int, s: int)
    requires Weekday(s) == Monday && s <= n <= s + 6
    ensures StartOfWeek(n) == s
  {
    var t := StartOfWeek(n);
    if s < t {
      SameWeekday(s, t);
    } else if t < s {
      SameWeekday(t, s);
    }
  }

  lemma StartOfWeekIdempotent(n: int)
    ensures StartOfWeek(StartOfWeek(n)) == StartOfWeek(n)
  {
    StartOfWeekUnique(StartOfWeek(n), StartOfWeek(n));
  }

  /** Every one of the seven rendered days starts the same week. */
  lemma StartOfWeekOfWeekDay(n: int, i: int)
    requires 0 <= i < 7
    ensures StartOfWeek(StartOfWeek(n) + i) == StartOfWeek(n)
  {
    StartOfWeekUnique(StartOfWeek(n) + i, StartOfWeek(n));
  }

  /** `changeWeek(7)` and `changeWeek(-7)` move the rendered week by exactly
      one week. */
  lemma ChangeWeekShifts(n: int)
    ensures StartOfWeek(n + 7) == StartOfWeek(n) + 7
    ensures StartOfWeek(n - 7) == StartOfWeek(n) - 7
  {
    StartOfWeekUnique(n + 7, StartOfWeek(n) + 7);
    StartOfWeekUnique(n - 7, StartOfWeek(n) - 7);
  }

  /** The last rendered day, `start + 6`. */
  function EndOfWeek(n: int): (e: int)
    ensures Weekday(e) == Sunday
    ensures e - 6 <= n <= e
  {
    StartOfWeek(n) + 6
  }

  /** Day `i` of the rendered week is weekday `i + 1`, the seventh being
      Sunday: the week runs Monday through Sunday. */
  lemma WeekRunsMondayToSunday(n: int, i: int)
    requires 0 <= i < 7
    ensures Weekday(StartOfWeek(n) + i) == (i + 1) % 7
  {
  }

  /** The weekday name shown for day `n`. */
  function DayName(n: int): string {
    DaysOfWeek[Weekday(n)]
  }

}
