/**
 * `win2epoch`: Windows FILETIME-based timestamps count seconds from
 * 1601-01-01 UTC, Unix timestamps from 1970-01-01 UTC. The shift constant is
 * checked here against a Gregorian-calendar count of the days in between.
 */
module Epoch {

  /** Seconds from 1601-01-01 to 1970-01-01, as the source writes it. */
  const WindowsToUnixShift: int := 11644473600

  function Win2Epoch(x: int): (r: int)
  {
    x - WindowsToUnixShift
  }

  predicate LeapYear(y: int) {
    y % 4 == 0 && (y % 100 != 0 || y % 400 == 0)
  }

  function DaysInYear(y: int): nat {
    if LeapYear(y) then 366 else 365
  }

  /** Days from January 1st of year `a` to January 1st of year `b`. */
  function DaysBetween(a: int, b: int): nat
    decreases b - a
  {
    if b <= a then 0 else DaysBetween(a, b - 1) + DaysInYear(b - 1)
  }

  /** Leap years in 1..y (for y >= 0). */
  function LeapsUpTo(y: int): int {
    y / 4 - y / 100 + y / 400
  }

  lemma DivStep4(y: int)
    ensures y / 4 - (y - 1) / 4 == if y % 4 == 0 then 1 else 0
  {
  }

  lemma DivStep100(y: int)
    ensures y / 100 - (y - 1) / 100 == if y % 100 == 0 then 1 else 0
  {
  }

  lemma DivStep400(y: int)
    ensures y / 400 - (y - 1) / 400 == if y % 400 == 0 then 1 else 0
  {
  }

  lemma Mod100To4(y: int)
    requires y % 100 == 0
    ensures y % 4 == 0
  {
    assert y == 4 * (25 * (y / 100));
  }

  lemma Mod400To100(y: int)
    requires y % 400 == 0
    ensures y % 100 == 0
  {
    assert y == 100 * (4 * (y / 400));
  }

  lemma LeapsStep(y: int)
    requires y >= 1
    ensures LeapsUpTo(y) - LeapsUpTo(y - 1) == if LeapYear(y) then 1 else 0
  {
    DivStep4(y);
    DivStep100(y);
    DivStep400(y);
    if y % 400 == 0 {
      Mod400To100(y);
      Mod100To4(y);
    } else if y % 100 == 0 {
      Mod100To4(y);
    }
  }

  lemma {:induction false} DaysBetweenClosedForm(a: int, b: int)
    requires 1 <= a <= b
    ensures DaysBetween(a, b) == 365 * (b - a) + LeapsUpTo(b - 1) - LeapsUpTo(a - 1)
    decreases b - a
  {
    if b > a {
      DaysBetweenClosedForm(a, b - 1);
      LeapsStep(b - 1);
    }
  }

  /** The source's constant is exactly the Gregorian distance between the two epochs. */
  lemma ShiftIsEpochDistance()
    ensures WindowsToUnixShift == 86400 * DaysBetween(1601, 1970)
  {
    DaysBetweenClosedForm(1601, 1970);
    assert LeapsUpTo(1969) == 477 && LeapsUpTo(1600) == 388;
  }

  /** The Windows timestamp of the Unix epoch converts to 0, and the
      conversion keeps the distance between any two instants. */
  lemma Win2EpochIsEpochShift(x: int, y: int)
    ensures Win2Epoch(86400 * DaysBetween(1601, 1970)) == 0
    ensures Win2Epoch(x) - Win2Epoch(y) == x - y
    ensures x < y <==> Win2Epoch(x) < Win2Epoch(y)
  {
    ShiftIsEpochDistance();
  }
}
