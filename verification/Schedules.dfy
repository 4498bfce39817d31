/**
 Daily schedules on the hub's wall clock: which instant a schedule means on a
 day, whatever the clocks do that day, and the next one after a moment.
 */
module Schedules {
  import opened Wrappers
  import opened TimeZones

  const DAYS_IN_WEEK: int := 7

  /** One bit a day, Sunday the lowest. */
  type Weekdays = bv8

  predicate Has(w: Weekdays, day: nat)
    requires day < DAYS_IN_WEEK
  {
    w & (1 << day) != 0
  }

  /** The set of days given, however often and in whatever order they are given. */
  method WeekdaysOf(days: seq<nat>) returns (w: Weekdays)
    requires forall i :: 0 <= i < |days| ==> days[i] < DAYS_IN_WEEK
    ensures forall day :: 0 <= day < DAYS_IN_WEEK ==> (Has(w, day) <==> day in days)
  {
    w := 0;
    for i := 0 to |days|
      invariant forall day :: 0 <= day < DAYS_IN_WEEK ==> (Has(w, day) <==> day in days[..i])
    {
      forall day | 0 <= day < DAYS_IN_WEEK
        ensures Has(w | (1 << days[i]), day) <==> Has(w, day) || day == days[i]
      {
        BitAdded(w, days[i], day);
      }
      w := w | (1 << days[i]);
      assert days[..i + 1] == days[..i] + [days[i]];
    }
    assert days[..|days|] == days;
  }

  lemma BitAdded(w: Weekdays, added: nat, day: nat)
    requires added < DAYS_IN_WEEK && day < DAYS_IN_WEEK
    ensures Has(w | (1 << added), day) <==> Has(w, day) || day == added
  {
    var bit := Bit(day);
    var other := Bit(added);
    assert day != added ==> bit & other == 0;
    assert (w | other) & bit != 0 <==> w & bit != 0 || other & bit != 0;
  }

  function Bit(day: nat): (bit: bv8)
    requires day < DAYS_IN_WEEK
    ensures bit == 1 << day
    ensures bit != 0
  {
    match day
    case 0 => 1
    case 1 => 2
    case 2 => 4
    case 3 => 8
    case 4 => 16
    case 5 => 32
    case _ => 64
  }

  /** A minute of the day, on the chosen days. */
  datatype Schedule = Schedule(minuteOfDay: nat, days: Weekdays)

  ghost predicate Valid(s: Schedule) {
    s.minuteOfDay < 1440 && exists day :: 0 <= day < DAYS_IN_WEEK && Has(s.days, day)
  }

  function DayOf(wall: int): int {
    wall / DAY
  }

  /** Day 0 is a Thursday. */
  function Weekday(day: int): (w: nat)
    ensures w < DAYS_IN_WEEK
  {
    (day + 4) % 7
  }

  /** The local time a schedule means on a day, before asking the zone what instant that is. */
  function LocalTime(day: int, minuteOfDay: nat): int {
    day * DAY + minuteOfDay * MINUTE
  }

  function HourOfDay(wall: int): int {
    wall % DAY / HOUR
  }

  function MinuteOfHour(wall: int): int {
    wall % HOUR / MINUTE
  }

  /** A wall time without its fraction of a second. */
  function WholeSeconds(wall: int): int {
    wall - wall % SECOND
  }

  datatype Bounds = Bounds(start: Option<Instant>, end: Option<Instant>)

  /** When the offset in force at t began and ends. */
  function ZoneBounds(z: Zone, t: Instant): Bounds {
    var i := Stretch(z, t, |z.changes|);
    Bounds(if i > 0 then Some(z.changes[i - 1].at) else None, if i < |z.changes| then Some(z.changes[i].at) else None)
  }

  /**
   The instant a schedule means on the local day that holds noon. A time the
   clocks skip means the end of the gap, and a time shown twice its first showing.
   */
  function WallClock(z: Zone, noon: Instant, minuteOfDay: nat, late: bool): Instant {
    var local := LocalTime(DayOf(Wall(z, noon)), minuteOfDay);
    var t := Date(z, local, late);
    var bounds := ZoneBounds(z, t);
    if HourOfDay(Wall(z, t)) != minuteOfDay / 60 || MinuteOfHour(Wall(z, t)) != minuteOfDay % 60 then
      if WholeSeconds(Wall(z, t)) > local then bounds.start.GetOr(t) else bounds.end.GetOr(t)
    else if bounds.start.None? then t
    else
      var previous := Offset(z, bounds.start.value - 1);
      var earlier := t - (previous - Offset(z, t));
      if previous > Offset(z, t) && earlier < bounds.start.value
         && WholeSeconds(Wall(z, earlier)) == WholeSeconds(Wall(z, t))
      then earlier
      else t
  }

  /** Whole-minute offsets keep whole-minute local times on whole minutes. */
  ghost predicate WholeMinutes(z: Zone) {
    forall i {:trigger OffsetOf(z, i)} :: 0 <= i <= |z.changes| ==> OffsetOf(z, i) % MINUTE == 0
  }

  lemma HourInMinutes(w: int)
    ensures HourOfDay(w * MINUTE) == w % 1440 / 60
  {
    var day, minute := w / 1440, w % 1440;
    assert w * MINUTE == day * DAY + minute * MINUTE;
    assert w * MINUTE % DAY == minute * MINUTE;
    var hour := minute / 60;
    assert minute * MINUTE == hour * HOUR + minute % 60 * MINUTE;
  }

  lemma MinuteInMinutes(w: int)
    ensures MinuteOfHour(w * MINUTE) == w % 60
  {
    var hour := w / 60;
    assert w * MINUTE == hour * HOUR + w % 60 * MINUTE;
    assert w * MINUTE % HOUR == w % 60 * MINUTE;
  }

  lemma MinutesOfDay(w: int, day: int, minute: int)
    requires w == day * 1440 + minute && 0 <= minute < 1440
    ensures w % 1440 == minute && w % 60 == minute % 60
  {
    var (hour, rest) := (minute / 60, minute % 60);
    assert w == 60 * (24 * day + hour) + rest;
  }

  lemma SameMinutes(a: int, b: int)
    ensures a / 60 == b / 60 && a % 60 == b % 60 <==> a == b
  {
  }

  lemma SameMinuteOfDay(w: int, day: int, minuteOfDay: nat)
    requires minuteOfDay < 1440 && -720 < w - (day * 1440 + minuteOfDay) < 720
    ensures w % 1440 / 60 == minuteOfDay / 60 && w % 60 == minuteOfDay % 60 <==> w == day * 1440 + minuteOfDay
  {
    var (q, m) := (w / 1440, w % 1440);
    MinutesOfDay(w, q, m);
    SameMinutes(m, minuteOfDay);
    assert m == minuteOfDay ==> q == day;
    assert w == day * 1440 + minuteOfDay ==> m == minuteOfDay;
  }

  /** Two whole-minute wall times under 12 hours apart that read the same hour and minute are the same. */
  lemma SameReading(day: int, minuteOfDay: nat, wall: int)
    requires minuteOfDay < 1440 && wall % MINUTE == 0
    requires -12 * HOUR < wall - LocalTime(day, minuteOfDay) < 12 * HOUR
    ensures HourOfDay(wall) == minuteOfDay / 60 && MinuteOfHour(wall) == minuteOfDay % 60 <==>
              wall == LocalTime(day, minuteOfDay)
  {
    hide HourOfDay, MinuteOfHour;
    var w := wall / MINUTE;
    assert wall == w * MINUTE;
    HourInMinutes(w);
    MinuteInMinutes(w);
    SameMinuteOfDay(w, day, minuteOfDay);
  }

  lemma WholeMinutesAdd(a: int, b: int)
    requires a % MINUTE == 0 && b % MINUTE == 0
    ensures (a + b) % MINUTE == 0 && (a - b) % MINUTE == 0
  {
  }

  lemma WholeMinuteWall(z: Zone, local: int, t: Instant, i: nat)
    requires WholeMinutes(z) && local % MINUTE == 0
    requires i <= |z.changes| && DateCase(z, local, i, t)
    ensures Wall(z, t) % MINUTE == 0
  {
    if Skipped(z, local, i) {
      var a, b := OffsetOf(z, i), OffsetOf(z, i - 1);
      WholeMinutesAdd(a, b);
      WholeMinutesAdd(local, a - b);
    }
  }

  /** In a gap the bounds of the side the library picked give the gap's end. */
  lemma GapEnd(z: Zone, local: int, t: Instant, i: nat)
    requires WellFormed(z) && i == FirstFit(z, local) && Skipped(z, local, i) && DateCase(z, local, i, t)
    ensures var bounds := ZoneBounds(z, t);
            Wall(z, t) != local
            && First(z, local) == (if Wall(z, t) > local then bounds.start.GetOr(t) else bounds.end.GetOr(t))
  {
    hide FirstFit, Stretch, WellFormed;
    StretchOf(z, if Wall(z, t) > local then i else i - 1, t);
  }

  /** A time the clocks skip means the end of the gap, and any other its first showing. */
  lemma WallClockIsFirst(z: Zone, noon: Instant, minuteOfDay: nat, late: bool)
    requires WellFormed(z) && WholeMinutes(z) && minuteOfDay < 1440
    ensures WallClock(z, noon, minuteOfDay, late) == First(z, LocalTime(DayOf(Wall(z, noon)), minuteOfDay))
  {
    hide HourOfDay, MinuteOfHour, FirstFit, Stretch, WholeMinutes, LocalTime, DayOf, WholeSeconds, WellFormed,
         ZoneBounds, First, Wall, Date, Skipped;
    var local := LocalTime(DayOf(Wall(z, noon)), minuteOfDay);
    var i := FirstFit(z, local);
    var t := Date(z, local, late);
    DateCases(z, local, late);
    LocalTimeIsWholeMinute(DayOf(Wall(z, noon)), minuteOfDay);
    WholeMinuteWall(z, local, t, i);
    SameReading(DayOf(Wall(z, noon)), minuteOfDay, Wall(z, t));
    WholeMinuteIsWholeSecond(Wall(z, t));
    if Skipped(z, local, i) {
      GapEnd(z, local, t, i);
    } else {
      FirstShowing(z, local, i, t);
    }
  }

  lemma LocalTimeIsWholeMinute(day: int, minuteOfDay: nat)
    ensures LocalTime(day, minuteOfDay) % MINUTE == 0
  {
    assert LocalTime(day, minuteOfDay) == (day * 1440 + minuteOfDay) * MINUTE;
  }

  lemma WholeMinuteIsWholeSecond(wall: int)
    requires wall % MINUTE == 0
    ensures WholeSeconds(wall) == wall
  {
    assert wall == wall / MINUTE * 60 * SECOND;
  }

  lemma StretchOf(z: Zone, i: nat, t: Instant)
    requires WellFormed(z) && InStretch(z, i, t)
    ensures Stretch(z, t, |z.changes|) == i && Offset(z, t) == OffsetOf(z, i)
  {
    StretchIsUnique(z, i, t);
  }

  /** The last branch of WallClock, for a time that is shown at t. */
  lemma FirstShowing(z: Zone, local: int, i: nat, t: Instant)
    requires WellFormed(z) && local % MINUTE == 0 && i == FirstFit(z, local)
    requires !Skipped(z, local, i) && DateCase(z, local, i, t)
    ensures var bounds := ZoneBounds(z, t);
            bounds.start.Some? ==>
              var previous := Offset(z, bounds.start.value - 1);
              var earlier := t - (previous - Offset(z, t));
              if previous > Offset(z, t) && earlier < bounds.start.value
              && WholeSeconds(Wall(z, earlier)) == WholeSeconds(Wall(z, t))
              then earlier == First(z, local) else t == First(z, local)
    ensures ZoneBounds(z, t).start.None? ==> t == First(z, local)
  {
    hide FirstFit, Stretch;
    WholeMinuteIsWholeSecond(local);
    var k := if InStretch(z, i, t) then i else i + 1;
    StretchOf(z, k, t);
    if k > 0 {
      assert ChangeOk(z, k - 1) && (k > 1 ==> ChangeOk(z, k - 2));
      StretchOf(z, k - 1, z.changes[k - 1].at - 1);
      var earlier := t - (OffsetOf(z, k - 1) - OffsetOf(z, k));
      if k == i + 1 {
        StretchOf(z, i, earlier);
      } else {
        assert z.changes[k - 1].at <= local - OffsetOf(z, k - 1);
      }
    }
  }

  /** The schedule's instant on a day is the least whose wall clock shows the schedule's time of that day or later. */
  lemma WallClockIsLeast(z: Zone, noon: Instant, minuteOfDay: nat, late: bool)
    requires WellFormed(z) && WholeMinutes(z) && minuteOfDay < 1440
    ensures IsFirst(z, LocalTime(DayOf(Wall(z, noon)), minuteOfDay), WallClock(z, noon, minuteOfDay, late))
  {
    WallClockIsFirst(z, noon, minuteOfDay, late);
    FirstIsLeast(z, LocalTime(DayOf(Wall(z, noon)), minuteOfDay));
  }

  // ---------- Days of the week ----------

  /**
   Day 0, the first of January 1970, was a Thursday, and the days of the week follow each other,
   Sunday after Saturday.
   */
  lemma WeekdaysGoRound(day: int)
    ensures Weekday(0) == 4
    ensures Weekday(day + 1) == if Weekday(day) == 6 then 0 else Weekday(day) + 1
  {
  }

  /** A day of the week comes round exactly every seven days. */
  lemma SameWeekday(a: int, b: int)
    ensures Weekday(a) == Weekday(b) <==> exists weeks :: b == a + 7 * weeks
  {
    if Weekday(a) == Weekday(b) {
      assert b == a + 7 * ((b - a) / 7);
    }
  }

  /** The lowest bit is Sunday's, the next Monday's and so on, and a mask has the days of its bits. */
  lemma BitsAreDays(a: Weekdays, b: Weekdays, day: nat)
    requires day < 7
    ensures Has(1, day) <==> day == 0
    ensures Has(2, day) <==> day == 1
    ensures Has(4, day) <==> day == 2
    ensures Has(8, day) <==> day == 3
    ensures Has(16, day) <==> day == 4
    ensures Has(32, day) <==> day == 5
    ensures Has(64, day) <==> day == 6
    ensures Has(a | b, day) <==> Has(a, day) || Has(b, day)
  {
    var bit := Bit(day);
    assert (a | b) & bit != 0 <==> a & bit != 0 || b & bit != 0;
  }

  // ---------- The next time a schedule is due ----------

  predicate RunsOn(s: Schedule, day: int) {
    Has(s.days, Weekday(day))
  }

  function DueOn(z: Zone, s: Schedule, day: int): Instant {
    First(z, LocalTime(day, s.minuteOfDay))
  }

  /** The least instant after t at which the schedule is due on any day. */
  ghost predicate IsNextAfter(z: Zone, s: Schedule, t: Instant, due: Instant) {
    && due > t
    && (exists day :: RunsOn(s, day) && DueOn(z, s, day) == due)
    && (forall day :: RunsOn(s, day) && DueOn(z, s, day) > t ==> due <= DueOn(z, s, day))
  }

  lemma NextAfterIsUnique(z: Zone, s: Schedule, t: Instant, a: Instant, b: Instant)
    requires IsNextAfter(z, s, t, a) && IsNextAfter(z, s, t, b)
    ensures a == b
  {
    var x :| RunsOn(s, x) && DueOn(z, s, x) == a;
    var y :| RunsOn(s, y) && DueOn(z, s, y) == b;
  }

  /**
   A schedule for one day of the week is due on exactly the days a whole number of weeks from one
   known to be that day.
   */
  lemma OneDayAWeek(s: Schedule, known: int, day: int)
    requires forall weekday :: 0 <= weekday < 7 ==> (Has(s.days, weekday) <==> weekday == Weekday(known))
    ensures RunsOn(s, day) <==> exists weeks :: day == known + 7 * weeks
  {
    SameWeekday(known, day);
  }

  /** On clocks that never change and are ahead of UTC by the base: the minute of the day, on a day whose bit is set. */
  ghost predicate ShowsTime(base: int, s: Schedule, t: Instant) {
    && (t + base) % 86_400_000_000_000 == s.minuteOfDay * 60_000_000_000
    && Has(s.days, ((t + base) / 86_400_000_000_000 + 4) % 7)
  }

  /** On such clocks a schedule is next due the first time after t that they show its time on one of its days. */
  lemma DueOnSteadyClocks(base: int, s: Schedule, t: Instant, due: Instant)
    requires s.minuteOfDay < 1440
    ensures IsNextAfter(Zone(base, []), s, t, due) <==>
              due > t && ShowsTime(base, s, due) && forall x :: t < x < due ==> !ShowsTime(base, s, x)
  {
    var z := Zone(base, []);
    forall x ensures ShowsTime(base, s, x) <==> exists day :: RunsOn(s, day) && DueOn(z, s, day) == x {
      SteadyDue(base, s, x);
    }
    hide ShowsTime, RunsOn, DueOn;
    if due > t && ShowsTime(base, s, due) && forall x :: t < x < due ==> !ShowsTime(base, s, x) {
      forall day | RunsOn(s, day) && DueOn(z, s, day) > t ensures due <= DueOn(z, s, day) {
        assert ShowsTime(base, s, DueOn(z, s, day));
      }
    }
  }

  lemma SteadyDue(base: int, s: Schedule, x: Instant)
    requires s.minuteOfDay < 1440
    ensures ShowsTime(base, s, x) <==> exists day :: RunsOn(s, day) && DueOn(Zone(base, []), s, day) == x
  {
    var z := Zone(base, []);
    forall day ensures DueOn(z, s, day) == day * 86_400_000_000_000 + s.minuteOfDay * 60_000_000_000 - base {}
    hide Has;
    if ShowsTime(base, s, x) {
      var day := (x + base) / 86_400_000_000_000;
      assert RunsOn(s, day) && DueOn(z, s, day) == x;
    }
    if day :| RunsOn(s, day) && DueOn(z, s, day) == x {
      DayOfTime(x + base, day, s.minuteOfDay);
    }
  }

  lemma DayOfTime(wall: int, day: int, minute: nat)
    requires wall == day * 86_400_000_000_000 + minute * 60_000_000_000 && minute < 1440
    ensures wall / 86_400_000_000_000 == day && wall % 86_400_000_000_000 == minute * 60_000_000_000
  {
  }

  /** Noon names its day even when the clocks change at noon. */
  lemma NoonNamesDay(z: Zone, day: int, late: bool)
    requires WellFormed(z)
    ensures DayOf(Wall(z, Date(z, LocalTime(day, 720), late))) == day
  {
    hide FirstFit, Stretch;
    var local := LocalTime(day, 720);
    DateCases(z, local, late);
    var wall := Wall(z, Date(z, local, late));
    assert local - 12 * HOUR < wall < local + 12 * HOUR;
  }

  /** A day's instant is no later than any instant that shows a later day. */
  lemma EarlierDaysAreDue(z: Zone, s: Schedule, day: int, t: Instant)
    requires WellFormed(z) && s.minuteOfDay < 1440 && day < DayOf(Wall(z, t))
    ensures DueOn(z, s, day) <= t
  {
    FirstIsLeast(z, LocalTime(day, s.minuteOfDay));
  }

  /** From the day after tomorrow on, a day's instant is still to come. */
  lemma LaterDaysAreNotDue(z: Zone, s: Schedule, day: int, t: Instant)
    requires WellFormed(z) && day >= DayOf(Wall(z, t)) + 2
    ensures DueOn(z, s, day) > t
  {
    var local := LocalTime(day, s.minuteOfDay);
    FirstIsLeast(z, local);
    assert Wall(z, t) < (DayOf(Wall(z, t)) + 1) * DAY;
    if DueOn(z, s, day) <= t {
      WallNeverFarBehind(z, DueOn(z, s, day), t);
    }
  }

  /** Each day's instant is after the one before: a gap is shorter than a day. */
  lemma DaysAreDueInOrder(z: Zone, s: Schedule, a: int, b: int)
    requires WellFormed(z) && a < b
    ensures DueOn(z, s, a) < DueOn(z, s, b)
  {
    hide FirstFit, Stretch;
    var local := LocalTime(b, s.minuteOfDay);
    FirstIsLeast(z, local);
    FirstIsLeast(z, LocalTime(a, s.minuteOfDay));
    var t := DueOn(z, s, b);
    var i := FirstFit(z, local);
    StretchOf(z, i, t);
    if i > 0 && t == z.changes[i - 1].at {
      assert ChangeOk(z, i - 1) && (i > 1 ==> ChangeOk(z, i - 2));
      StretchOf(z, i - 1, t - 1);
    } else {
      StretchOf(z, i, t - 1);
    }
    assert LocalTime(a, s.minuteOfDay) <= local - DAY;
    assert Wall(z, t - 1) >= LocalTime(a, s.minuteOfDay);
  }

  /** Every weekday comes round within a week. */
  lemma RunsWithinWeek(s: Schedule, from: int) returns (day: int)
    requires Valid(s)
    ensures from <= day < from + 7 && RunsOn(s, day)
  {
    var weekday :| 0 <= weekday < DAYS_IN_WEEK && Has(s.days, weekday);
    day := from + (weekday - from - 4) % 7;
    assert Weekday(day) == weekday;
  }

  /**
   Looks at each day in turn from the day t falls on. Sides stands for the
   library's choice wherever a local time names no instant or two. The day found
   is at most the eighth after that of t.
   */
  method NextAfter(z: Zone, s: Schedule, t: Instant, sides: int -> bool) returns (due: Instant)
    requires WellFormed(z) && WholeMinutes(z) && Valid(s)
    ensures IsNextAfter(z, s, t, due) && forall other :: IsNextAfter(z, s, t, other) ==> other == due
    ensures exists day :: DayOf(Wall(z, t)) <= day <= DayOf(Wall(z, t)) + 8 && RunsOn(s, day) && due == DueOn(z, s, day)
  {
    hide First, Date, Wall, Has;
    var today := DayOf(Wall(z, t));
    var offset: nat := 0;
    while true
      invariant offset <= 8
      invariant forall day :: today <= day < today + offset && RunsOn(s, day) ==> DueOn(z, s, day) <= t
      decreases 8 - offset
    {
      var local := LocalTime(today + offset, 720);
      var noon := Date(z, local, sides(local));
      NoonNamesDay(z, today + offset, sides(local));
      if Has(s.days, Weekday(DayOf(Wall(z, noon)))) {
        var at := LocalTime(DayOf(Wall(z, noon)), s.minuteOfDay);
        due := WallClock(z, noon, s.minuteOfDay, sides(at));
        WallClockIsFirst(z, noon, s.minuteOfDay, sides(at));
        if due > t {
          FoundNextAfter(z, s, t, today + offset);
          forall other | IsNextAfter(z, s, t, other) ensures other == due {
            NextAfterIsUnique(z, s, t, due, other);
          }
          return;
        }
      }
      if offset == 8 {
        var day := RunsWithinWeek(s, today + 2);
        LaterDaysAreNotDue(z, s, day, t);
        assert false;
      }
      offset := offset + 1;
    }
  }

  lemma FoundNextAfter(z: Zone, s: Schedule, t: Instant, found: int)
    requires WellFormed(z) && s.minuteOfDay < 1440 && found >= DayOf(Wall(z, t))
    requires RunsOn(s, found) && DueOn(z, s, found) > t
    requires forall day :: DayOf(Wall(z, t)) <= day < found && RunsOn(s, day) ==> DueOn(z, s, day) <= t
    ensures IsNextAfter(z, s, t, DueOn(z, s, found))
  {
    forall day | RunsOn(s, day) && DueOn(z, s, day) > t ensures DueOn(z, s, found) <= DueOn(z, s, day) {
      if day < DayOf(Wall(z, t)) {
        EarlierDaysAreDue(z, s, day, t);
      } else if day > found {
        DaysAreDueInOrder(z, s, found, day);
      }
    }
  }

  // ---------- One night after another ----------

  /** The next day the schedule runs on. */
  ghost predicate IsNextDay(s: Schedule, a: int, b: int) {
    a < b && RunsOn(s, b) && forall day :: a < day < b ==> !RunsOn(s, day)
  }

  /**
   From one scheduled instant the next is that of the next scheduled day, neither the same night
   again nor a later one.
   */
  lemma NextAfterDueIsNextDay(z: Zone, s: Schedule, day: int, due: Instant) returns (next: int)
    requires WellFormed(z) && IsNextAfter(z, s, DueOn(z, s, day), due)
    ensures IsNextDay(s, day, next) && due == DueOn(z, s, next)
  {
    next :| RunsOn(s, next) && DueOn(z, s, next) == due;
    if next <= day {
      if next < day {
        DaysAreDueInOrder(z, s, next, day);
      }
      assert false;
    }
    forall between | day < between < next && RunsOn(s, between) ensures false {
      DaysAreDueInOrder(z, s, day, between);
      DaysAreDueInOrder(z, s, between, next);
    }
  }

  /** Instants each the next one after the one before. */
  ghost predicate Chain(z: Zone, s: Schedule, fires: seq<Instant>) {
    forall k :: 0 <= k < |fires| - 1 ==> IsNextAfter(z, s, fires[k], fires[k + 1])
  }

  /** Days each the next one the schedule runs on after the one before. */
  ghost predicate DaysInTurn(s: Schedule, days: seq<int>) {
    forall k :: 0 <= k < |days| - 1 ==> IsNextDay(s, days[k], days[k + 1])
  }

  lemma {:induction false} DaysInTurnAscend(s: Schedule, days: seq<int>, i: nat, j: nat)
    requires DaysInTurn(s, days) && i < j < |days|
    ensures days[i] < days[j]
    decreases j
  {
    assert IsNextDay(s, days[j - 1], days[j]);
    if i < j - 1 {
      DaysInTurnAscend(s, days, i, j - 1);
    }
  }

  /** Days in turn miss none between the first and the last. */
  lemma {:induction false} DaysInTurnMissNone(s: Schedule, days: seq<int>, day: int) returns (k: nat)
    requires DaysInTurn(s, days) && |days| > 0 && RunsOn(s, day) && days[0] <= day <= days[|days| - 1]
    requires RunsOn(s, days[0])
    ensures k < |days| && days[k] == day
    decreases |days|
  {
    var last := |days| - 1;
    if days[last] == day {
      k := last;
    } else {
      assert IsNextDay(s, days[last - 1], days[last]);
      k := DaysInTurnMissNone(s, days[..last], day);
    }
  }

  /** The day each instant of a chain belongs to. */
  lemma {:induction false} DaysOfChain(z: Zone, s: Schedule, start: int, fires: seq<Instant>) returns (days: seq<int>)
    requires WellFormed(z) && RunsOn(s, start)
    requires |fires| > 0 && fires[0] == DueOn(z, s, start) && Chain(z, s, fires)
    ensures |days| == |fires| && days[0] == start && DaysInTurn(s, days)
    ensures forall k :: 0 <= k < |fires| ==> RunsOn(s, days[k]) && fires[k] == DueOn(z, s, days[k])
    decreases |fires|
  {
    hide IsNextAfter;
    var last := |fires| - 1;
    if last == 0 {
      days := [start];
    } else {
      var earlier := DaysOfChain(z, s, start, fires[..last]);
      assert IsNextAfter(z, s, fires[last - 1], fires[last]);
      var next := NextAfterDueIsNextDay(z, s, earlier[last - 1], fires[last]);
      days := earlier + [next];
    }
  }

  /**
   Following the schedule from any of its instants visits every day it runs on
   exactly once: no night fires twice, and none is passed over.
   */
  lemma EveryNightOnce(z: Zone, s: Schedule, start: int, fires: seq<Instant>) returns (days: seq<int>)
    requires WellFormed(z) && RunsOn(s, start)
    requires |fires| > 0 && fires[0] == DueOn(z, s, start) && Chain(z, s, fires)
    ensures |days| == |fires| && days[0] == start
    ensures forall k :: 0 <= k < |fires| ==> RunsOn(s, days[k]) && fires[k] == DueOn(z, s, days[k])
    ensures forall day :: RunsOn(s, day) && start <= day <= days[|days| - 1] ==> day in days
    ensures forall i, j :: 0 <= i < j < |days| ==> days[i] < days[j] && fires[i] < fires[j]
  {
    hide First, Has;
    days := DaysOfChain(z, s, start, fires);
    forall day | RunsOn(s, day) && start <= day <= days[|days| - 1] ensures day in days {
      var k := DaysInTurnMissNone(s, days, day);
    }
    forall i, j | 0 <= i < j < |days| ensures days[i] < days[j] && fires[i] < fires[j] {
      DaysInTurnAscend(s, days, i, j);
      DaysAreDueInOrder(z, s, days[i], days[j]);
    }
  }

  /**
   The eighth day is needed. Just after the clocks go back across midnight into
   day 9, a schedule of 00:15 on day 10's weekday alone has already been due for
   day 10, and is next due on day 17.
   */
  lemma EighthDayNeeded(z: Zone, s: Schedule, t: Instant)
    requires z == Zone(HOUR, [Transition(LocalTime(10, 30) - HOUR, 0)])
    requires s == Schedule(15, 1)
    requires t == LocalTime(10, 31) - HOUR
    ensures WellFormed(z) && WholeMinutes(z) && Valid(s)
    ensures DayOf(Wall(z, t)) + 8 == 17 && IsNextAfter(z, s, t, DueOn(z, s, 17))
  {
    assert Has(s.days, 0);
    forall weekday | 0 < weekday < DAYS_IN_WEEK ensures !Has(s.days, weekday) {
      assert Bit(weekday) & 1 == 0;
    }
    assert forall day :: RunsOn(s, day) ==> Weekday(day) == 0;
    assert RunsOn(s, 17);
    forall day | RunsOn(s, day) && DueOn(z, s, day) > t ensures DueOn(z, s, 17) <= DueOn(z, s, day) {
      if day > 17 {
        DaysAreDueInOrder(z, s, 17, day);
      } else if day < 10 {
        DaysAreDueInOrder(z, s, day, 10);
      }
    }
  }
}
