/**
 The station's local clock, as the traceroute scheduler reads it: an epoch in seconds with a
 fraction, and a fixed offset from UTC. Broken-down time keeps whole seconds only, so the
 midnight that the scheduler computes carries the fraction of the instant it was computed at.
 */
module LocalTime {
  const DAY: int := 86400

  function Fraction(t: real): real {
    t - t.Floor as real
  }

  /** Hour, minute and second of the broken-down local time, in seconds since midnight. */
  function SecondOfDay(t: real, offset: int): int {
    (t.Floor + offset) % DAY
  }

  function MinuteOfDay(t: real, offset: int): int {
    SecondOfDay(t, offset) / 60
  }

  function LocalDay(t: real, offset: int): int {
    (t.Floor + offset) / DAY
  }

  /** The true local midnight that opens a day. */
  function DayStart(day: int, offset: int): real {
    (day * DAY - offset) as real
  }

  /** The midnight the scheduler computes: whole seconds of the day taken off the instant. */
  function LocalMidnight(t: real, offset: int): real {
    t - SecondOfDay(t, offset) as real
  }

  lemma DayBounds(t: real, offset: int)
    ensures DayStart(LocalDay(t, offset), offset) <= t < DayStart(LocalDay(t, offset) + 1, offset)
    ensures 0.0 <= Fraction(t) < 1.0
  {
    var s := t.Floor + offset;
    assert s == (s / DAY) * DAY + s % DAY;
  }

  /** A day is exactly the half-open interval between two midnights. */
  lemma DayIsAnInterval(t: real, day: int, offset: int)
    ensures LocalDay(t, offset) == day <==> DayStart(day, offset) <= t < DayStart(day + 1, offset)
  {
    DayBounds(t, offset);
    var mine := LocalDay(t, offset);
    if mine < day {
      assert (mine + 1) * DAY <= day * DAY;
    } else if mine > day {
      assert (day + 1) * DAY <= mine * DAY;
    }
  }

  lemma DaysAreOrdered(a: int, b: int, offset: int)
    requires a < b
    ensures DayStart(a + 1, offset) <= DayStart(b, offset)
  {
    assert (a + 1) * DAY <= b * DAY;
  }

  /** The computed midnight is late by the fraction of the second, and by nothing else. */
  lemma MidnightIsLateByTheFraction(t: real, offset: int)
    ensures LocalMidnight(t, offset) == DayStart(LocalDay(t, offset), offset) + Fraction(t)
  {
    var s := t.Floor + offset;
    assert s == (s / DAY) * DAY + s % DAY;
  }
}
