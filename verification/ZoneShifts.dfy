/**
  Local times near a change of the zone's offset, such as the start or the end of daylight
  saving time: which of them the single correction step of `zonedTimeToUtc` gets wrong.
*/
module ZoneShifts {
  import opened CivilDates
  import opened BusinessTime

  /** Around a moment, the zone changes its offset from `before` to `after` at `shift`, and not otherwise. */
  ghost predicate ShiftsAt(zone: Zone, shift: int, before: int, after: int, around: int) {
    forall t :: around - MS_PER_DAY <= t <= around + MS_PER_DAY ==> zone(t) == if t < shift then before else after
  }

  ghost predicate Offset(x: int) {
    x % 1000 == 0 && -MS_PER_DAY < x < MS_PER_DAY
  }

  /**
    A local time is written here as the UTC instant with the same wall clock, which is also the
    code's first guess. With one shift in the day around it, the result shows the requested
    wall clock except in two windows, which a caller can compute: between the shift's local
    time by the old offset and the shift's UTC time, and between its UTC time and its local
    time by the new offset.
  */
  lemma WrongNearShift(local: int, ms: int, zone: Zone, shift: int, before: int, after: int)
    requires WholeSeconds(zone) && 0 <= ms < 1000 && local % 1000 == ms
    requires Offset(before) && Offset(after) && before != after && ShiftsAt(zone, shift, before, after, local)
    requires FromYear100(local + (if local < shift then before else after))
    ensures
      var result := Corrected(local, ms, zone);
      result + zone(result) == local <==> !(shift + before <= local < shift) && !(shift <= local < shift + after)
  {
    hide Corrected;
    hide FromYear100;
    OneCorrectionStep(local, ms, zone);
    RightUnlessOffsetChanges(local, ms, zone);
  }

  /**
    Which of these could have been right: a local time exists if some instant near it shows it.
    Only the local times skipped by the shift do not.
  */
  lemma ExistsUnlessSkipped(local: int, zone: Zone, shift: int, before: int, after: int)
    requires Offset(before) && Offset(after) && ShiftsAt(zone, shift, before, after, local)
    ensures
      (exists t :: local - MS_PER_DAY <= t <= local + MS_PER_DAY && t + zone(t) == local)
      <==> !(shift + before <= local < shift + after)
  {
    if local < shift + before {
      assert (local - before) + zone(local - before) == local;
    } else if local >= shift + after {
      assert (local - after) + zone(local - after) == local;
    }
  }

  const HOUR := 3_600_000

  /** 10 March 2024, 07:00 UTC: in New York 02:00 becomes 03:00. */
  const SPRING_2024 := 19_792 * MS_PER_DAY + 7 * HOUR

  const NEW_YORK: Zone := t => if t < SPRING_2024 then -5 * HOUR else -4 * HOUR

  lemma TenthOfMarch()
    ensures IsValid(Date(2024, 2, 10)) && DayNumber(Date(2024, 2, 10)) == 19_792
    ensures DateUTC(2024, 2, 10, 5, 0, 0, 0) == 19_792 * MS_PER_DAY + 5 * HOUR
  {
    MakeDayInRange(Date(2024, 2, 10));
  }

  lemma TenthOfMarchIsLate()
    ensures FromYear100(19_792 * MS_PER_DAY)
  {
    hide DayNumber;
    hide DateOf;
    TenthOfMarch();
    DateOfDayNumber(Date(2024, 2, 10));
    assert LocalDate(19_792 * MS_PER_DAY) == Date(2024, 2, 10);
  }

  /** Asked for 05:00 of that day, which exists, the code answers the instant that shows 06:00. */
  lemma FiveBecomesSix()
    ensures
      var result := ZonedTimeToUtc(2024, 3, 10, 5, 0, 0, 0, NEW_YORK);
      && result + NEW_YORK(result) == DateUTC(2024, 2, 10, 6, 0, 0, 0)
      && (19_792 * MS_PER_DAY + 9 * HOUR) + NEW_YORK(19_792 * MS_PER_DAY + 9 * HOUR) == DateUTC(2024, 2, 10, 5, 0, 0, 0)
  {
    hide DateUTC;
    hide Corrected;
    hide FromYear100;
    TenthOfMarch();
    TenthOfMarchIsLate();
    var guess := 19_792 * MS_PER_DAY + 5 * HOUR;
    LaterByAnHour();
    OneCorrectionStep(guess, 0, NEW_YORK);
  }

  lemma LaterByAnHour()
    ensures DateUTC(2024, 2, 10, 6, 0, 0, 0) == DateUTC(2024, 2, 10, 5, 0, 0, 0) + HOUR
  {}
}
