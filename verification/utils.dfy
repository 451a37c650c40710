/** The Do Not Disturb window test of `src/utils/utils.ts`: is the local
    minute-of-day of an instant inside `[start, end)`, where a window whose end
    comes before its start wraps past midnight. */
module Utils {
  import opened EventsModel
  import opened PreferencesModel

  /** Local minute-of-day, in a zone `utcOffset` minutes east of UTC, of the
      UTC reading `hour:minute`. */
  function LocalMinuteOfDay(hour: nat, minute: nat, utcOffset: int): (m: nat)
    ensures m < MinutesPerDay
  {
    (hour * 60 + minute + utcOffset) % MinutesPerDay
  }

  /** The comparison on minute-of-day values: `checkTime` against the window
      from `startTime` (inclusive) to `endTime` (exclusive). */
  predicate InWindow(checkTime: int, startTime: int, endTime: int) {
    if endTime < startTime then checkTime >= startTime || checkTime < endTime
    else checkTime >= startTime && checkTime < endTime
  }

  /** Minutes elapsed going forward round the clock from `from` to `to`. */
  function ForwardDistance(from: int, to: int): (d: nat)
    ensures d < MinutesPerDay
  {
    (to - from) % MinutesPerDay
  }

  /** `isTimeBetween(timestamp, start, end)` with the process time zone fixed
      at `utcOffset`. For valid bounds, the result holds exactly when, walking
      forward from `start`, the check time is reached before `end` is. */
  function IsTimeBetween(timestamp: Instant, utcOffset: int, start: ClockTime, end: ClockTime): (r: bool)
    requires start.Valid() && end.Valid()
    ensures var s := ToMinutes(start);
            r <==> ForwardDistance(s, LocalMinuteOfDay(timestamp.hour, timestamp.minute, utcOffset)) < ForwardDistance(s, ToMinutes(end))
  {
    var checkTime := LocalMinuteOfDay(timestamp.hour, timestamp.minute, utcOffset);
    ForwardCharacterization(checkTime, ToMinutes(start), ToMinutes(end));
    InWindow(checkTime, ToMinutes(start), ToMinutes(end))
  }

  /** The window test on minute-of-day values agrees with the walk-forward
      reading of a window. */
  lemma ForwardCharacterization(c: nat, s: nat, e: nat)
    requires c < MinutesPerDay && s < MinutesPerDay && e < MinutesPerDay
    ensures InWindow(c, s, e) <==> ForwardDistance(s, c) < ForwardDistance(s, e)
  {
    ClockDifference(c - s);
    ClockDifference(e - s);
  }

  lemma ClockDifference(a: int)
    requires -(MinutesPerDay as int) < a < MinutesPerDay
    ensures a % MinutesPerDay == if a >= 0 then a else a + MinutesPerDay
  {
  }

  /** A window that does not wrap holds exactly `start <= check < end`. */
  lemma NonWrappingWindow(c: nat, s: nat, e: nat)
    requires s <= e
    ensures InWindow(c, s, e) <==> s <= c < e
  {
  }

  /** A window that wraps holds exactly `check >= start || check < end`. */
  lemma WrappingWindow(c: nat, s: nat, e: nat)
    requires e < s
    ensures InWindow(c, s, e) <==> c >= s || c < e
  {
  }

  /** A window whose start equals its end is empty. */
  lemma DegenerateWindowIsEmpty(c: nat, s: nat)
    ensures !InWindow(c, s, s)
  {
  }

  /** The start is inside every non-empty window; the end is never inside. */
  lemma WindowBoundaries(s: nat, e: nat)
    ensures s != e ==> InWindow(s, s, e)
    ensures !InWindow(e, s, e)
  {
  }

  /** A wrapping window `[s, e)` is the complement of the plain window `[e, s)`. */
  lemma WrapIsComplement(c: nat, s: nat, e: nat)
    requires e < s
    ensures InWindow(c, s, e) <==> !InWindow(c, e, s)
  {
  }

  /** Only the hour and minute of the instant matter: the date and the seconds
      do not change the answer. */
  lemma OnlyHourAndMinuteMatter(t1: Instant, t2: Instant, utcOffset: int, start: ClockTime, end: ClockTime)
    requires start.Valid() && end.Valid()
    requires t1.hour == t2.hour && t1.minute == t2.minute
    ensures IsTimeBetween(t1, utcOffset, start, end) == IsTimeBetween(t2, utcOffset, start, end)
  {
  }
}
