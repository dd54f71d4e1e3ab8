/**
 The next occurrence of a local time of day (internal/sched/sched.go:130-158).
 Instants are nanoseconds since 1970; a local calendar day is numbered from
 1970-01-01, a Thursday.
 */
module Calendar {
  const MINUTE := 60_000_000_000
  const DAY := 86_400_000_000_000
  const MILLI := 1_000_000

  /** What the program learns from time.Date and from a Time's local date. */
  datatype Zone = Zone(at: (int, int) -> int, dayOf: int -> int)

  predicate IsMinute(m: int) { 0 <= m < 1440 }

  /**
   The zones considered: later instants have no earlier date, and a local time
   of day exists on every day (no gap moves it to another one), on a whole
   millisecond.
   */
  ghost predicate Regular(z: Zone) {
    && (forall t, u :: t <= u ==> z.dayOf(t) <= z.dayOf(u))
    && (forall d, m :: IsMinute(m) ==> z.dayOf(z.at(d, m)) == d && z.at(d, m) % MILLI == 0)
  }

  function Weekday(day: int): int { (day + 4) % 7 }

  /** A weekday is asked for, or any day will do (nil). */
  datatype DayChoice = AnyDay | OnlyOn(weekday: int)

  predicate Fits(day: int, choice: DayChoice) {
    choice.OnlyOn? ==> Weekday(day) == choice.weekday
  }

  predicate IsChoice(choice: DayChoice) { choice.OnlyOn? ==> 0 <= choice.weekday < 7 }

  /** `t` is the first instant after `now` with that time of day on a fitting day. */
  ghost predicate IsNext(z: Zone, now: int, minute: int, choice: DayChoice, t: int) {
    && now < t && t == z.at(z.dayOf(t), minute) && Fits(z.dayOf(t), choice)
    && forall d :: now < z.at(d, minute) && Fits(d, choice) ==> t <= z.at(d, minute)
  }

  lemma NextIsUnique(z: Zone, now: int, minute: int, choice: DayChoice, t: int, u: int)
    requires IsNext(z, now, minute, choice, t) && IsNext(z, now, minute, choice, u)
    ensures t == u
  {
  }

  lemma DaysAreInOrder(z: Zone, d: int, e: int, minute: int)
    requires Regular(z) && IsMinute(minute) && d < e
    ensures z.at(d, minute) < z.at(e, minute)
  {
  }

  lemma LaterDayIsAfter(z: Zone, now: int, d: int, minute: int)
    requires Regular(z) && IsMinute(minute) && z.dayOf(now) < d
    ensures now < z.at(d, minute)
  {
  }

  /** Every choice of a day is met within the coming week. */
  function DaysUntil(day: int, choice: DayChoice): (k: int)
    requires IsChoice(choice)
    ensures 1 <= k <= 7 && Fits(day + k, choice)
    ensures forall d :: day < d < day + k ==> !Fits(d, choice)
  {
    match choice
    case AnyDay => 1
    case OnlyOn(w) =>
      var gap := w - Weekday(day);
      if gap > 0 then gap else gap + 7
  }

  /**
   nextAtTime: the earliest instant strictly after now. Eight iterations
   always find it, so the return after the loop is unreachable.
   */
  method NextAtTime(z: Zone, now: int, minute: int, choice: DayChoice) returns (t: int)
    requires Regular(z) && IsMinute(minute) && IsChoice(choice)
    ensures IsNext(z, now, minute, choice, t)
  {
    var today := z.dayOf(now);
    ghost var latest := DaysUntil(today, choice);
    t := z.at(today, minute);
    assert z.dayOf(t) == today;
    for i := 0 to 8
      invariant t == z.at(today + i, minute) && z.dayOf(t) == today + i
      invariant i <= latest
      invariant forall d :: today <= d < today + i ==> !(now < z.at(d, minute) && Fits(d, choice))
    {
      if t > now && Fits(z.dayOf(t), choice) {
        forall d | now < z.at(d, minute) && Fits(d, choice) ensures t <= z.at(d, minute) {
          if d < today {
            DayBeforeIsNotAfter(z, now, d, minute);
          } else if today + i < d {
            DaysAreInOrder(z, today + i, d, minute);
          }
        }
        return t;
      }
      if i > 0 {
        LaterDayIsAfter(z, now, today + i, minute);
      }
      assert z.dayOf(z.at(today + i + 1, minute)) == today + i + 1;
      t := z.at(z.dayOf(t) + 1, minute);
    }
    assert false;
  }

  lemma DayBeforeIsNotAfter(z: Zone, now: int, d: int, minute: int)
    requires Regular(z) && IsMinute(minute) && d < z.dayOf(now)
    ensures z.at(d, minute) < now
  {
  }

  /** The next occurrence in one formula: today's if it is still to come, else the coming fitting day's. */
  function NextInstant(z: Zone, now: int, minute: int, choice: DayChoice): int
    requires IsChoice(choice)
  {
    var today := z.dayOf(now);
    if now < z.at(today, minute) && Fits(today, choice) then z.at(today, minute)
    else z.at(today + DaysUntil(today, choice), minute)
  }

  /** Every instant has a next occurrence, at most a week of days ahead. */
  lemma NextInstantIsNext(z: Zone, now: int, minute: int, choice: DayChoice)
    requires Regular(z) && IsMinute(minute) && IsChoice(choice)
    ensures IsNext(z, now, minute, choice, NextInstant(z, now, minute, choice))
    ensures z.dayOf(NextInstant(z, now, minute, choice)) <= z.dayOf(now) + 7
  {
  }

  /** A weekly time that has just passed comes a full week later: seven iterations would not do. */
  lemma SeventhDayIsNeeded(z: Zone, day: int, minute: int, t: int)
    requires Regular(z) && IsMinute(minute)
    requires IsNext(z, z.at(day, minute), minute, OnlyOn(Weekday(day)), t)
    ensures t == z.at(day + 7, minute)
  {
  }

  /** time.Time.UnixMilli. */
  function Millis(t: int): int { t / MILLI }

  /** An occurrence is later than now even when both are cut to milliseconds. */
  lemma NextMillisAreLater(z: Zone, now: int, minute: int, choice: DayChoice, t: int)
    requires Regular(z) && IsMinute(minute) && IsNext(z, now, minute, choice, t)
    ensures Millis(now) < Millis(t)
  {
  }

  /** Universal time is one such zone. */
  function Utc(): Zone { Zone((d, m) => (1440 * d + m) * MINUTE, t => t / DAY) }

  lemma UtcIsRegular()
    ensures Regular(Utc())
  {
  }
}
