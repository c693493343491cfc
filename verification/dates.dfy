/**
 * JavaScript `Date` values as the pages use them: a millisecond count, or the
 * invalid date (`NaN`) that every comparison treats as false. Days are counted
 * in UTC; local time zones are not modelled.
 */
module Dates {

  /** A `Date`: milliseconds since the epoch, or an invalid date. */
  datatype Instant = Valid(ms: int) | Invalid

  /** How a page turns a date string into a `Date` (`new Date(s)`); supplied by the caller. */
  type DateParser = string -> Instant

  const DayMs: int := 86_400_000

  /** The day number of an instant (days since the epoch, rounding down). */
  function DayOf(ms: int): int {
    ms / DayMs
  }

  /** `d.setHours(0, 0, 0, 0)`: the first millisecond of the same day. */
  function StartOfDay(t: Instant): (r: Instant)
    ensures r.Valid? <==> t.Valid?
    ensures r.Valid? ==> DayOf(r.ms) == DayOf(t.ms) && r.ms <= t.ms
    ensures r.Valid? ==> forall m :: DayOf(m) == DayOf(t.ms) ==> r.ms <= m
  {
    match t
    case Invalid => Invalid
    case Valid(ms) => Valid(DayOf(ms) * DayMs)
  }

  /** `d.setHours(23, 59, 59, 999)`: the last millisecond of the same day. */
  function EndOfDay(t: Instant): (r: Instant)
    ensures r.Valid? <==> t.Valid?
    ensures r.Valid? ==> DayOf(r.ms) == DayOf(t.ms) && t.ms <= r.ms
    ensures r.Valid? ==> forall m :: DayOf(m) == DayOf(t.ms) ==> m <= r.ms
  {
    match t
    case Invalid => Invalid
    case Valid(ms) => Valid(DayOf(ms) * DayMs + DayMs - 1)
  }

  /** `a >= b` on dates: false when either is invalid. */
  predicate AtOrAfter(a: Instant, b: Instant) {
    a.Valid? && b.Valid? && a.ms >= b.ms
  }

  /** `a <= b` on dates: false when either is invalid. */
  predicate AtOrBefore(a: Instant, b: Instant) {
    a.Valid? && b.Valid? && a.ms <= b.ms
  }

  /** `a < b` on dates: false when either is invalid. */
  predicate Before(a: Instant, b: Instant) {
    a.Valid? && b.Valid? && a.ms < b.ms
  }

  /** An instant is at or after the start of a day exactly when its day is that day or later. */
  lemma AtOrAfterStartOfDayIffDay(a: Instant, b: Instant)
    requires a.Valid? && b.Valid?
    ensures AtOrAfter(a, StartOfDay(b)) <==> DayOf(a.ms) >= DayOf(b.ms)
  {
    var d := DayOf(b.ms);
    assert a.ms >= d * DayMs <==> a.ms / DayMs >= d;
  }

  /** An instant is at or before the end of a day exactly when its day is that day or earlier. */
  lemma AtOrBeforeEndOfDayIffDay(a: Instant, b: Instant)
    requires a.Valid? && b.Valid?
    ensures AtOrBefore(a, EndOfDay(b)) <==> DayOf(a.ms) <= DayOf(b.ms)
  {
    var d := DayOf(b.ms);
    assert a.ms <= d * DayMs + DayMs - 1 <==> a.ms / DayMs <= d;
  }
}
