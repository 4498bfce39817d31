/** When a time trigger is due next, and when it last came due while the hub was down. */
module DueTimes {
  import opened Wrappers
  import opened TimeZones
  import opened Schedules
  import opened Automations

  // ---------- Intervals ----------

  /** The k-th occurrence of an interval counted from a first one. */
  function Nth(first: Instant, interval: nat, k: int): Instant {
    first + k * interval
  }

  ghost predicate InPhase(first: Instant, interval: nat, t: Instant) {
    exists k :: Nth(first, interval, k) == t
  }

  function IntervalDue(interval: nat, from: Instant, after: Instant): Instant
    requires interval > 0
  {
    if from > after then from else from + ((after - from) / interval + 1) * interval
  }

  lemma NthInOrder(first: Instant, interval: nat, i: int, j: int)
    requires interval > 0
    ensures Nth(first, interval, i) < Nth(first, interval, j) <==> i < j
    ensures i < j ==> Nth(first, interval, i) + interval <= Nth(first, interval, j)
  {
    if i < j {
      assert (j - i - 1) * interval >= 0;
    } else {
      assert (i - j) * interval >= 0;
    }
  }

  /** The next due time is the least in phase that is after the moment given and no earlier than from. */
  lemma IntervalDueIsNext(interval: nat, from: Instant, after: Instant)
    requires interval > 0
    ensures var due := IntervalDue(interval, from, after);
            && due > after && due >= from && InPhase(from, interval, due)
            && forall k ::
                 Nth(from, interval, k) > after && Nth(from, interval, k) >= from ==> due <= Nth(from, interval, k)
  {
    var n := if from > after then 0 else (after - from) / interval + 1;
    var due := IntervalDue(interval, from, after);
    assert Nth(from, interval, n) == due;
    if from <= after {
      assert Nth(from, interval, n - 1) <= after < due;
    }
    forall k | Nth(from, interval, k) > after && Nth(from, interval, k) >= from ensures due <= Nth(from, interval, k) {
      if k < n {
        if from > after {
          NthInOrder(from, interval, k, 0);
        } else {
          NthInOrder(from, interval, n - 1, k);
        }
      } else if k > n {
        NthInOrder(from, interval, n, k);
      }
    }
  }

  lemma PhaseIsShared(first: Instant, interval: nat, from: Instant, t: Instant)
    requires InPhase(first, interval, from) && InPhase(from, interval, t)
    ensures InPhase(first, interval, t)
  {
    var i :| Nth(first, interval, i) == from;
    var j :| Nth(from, interval, j) == t;
    assert Nth(first, interval, i + j) == first + i * interval + j * interval;
  }

  /**
   Re-arming keeps the phase for good, however late or early it comes. Re-armed
   after it came due, a trigger is next due an interval later at the soonest; re-armed
   before, it is due when it was.
   */
  lemma {:induction false} IntervalKeepsPhase(interval: nat, dues: seq<Instant>, afters: seq<Instant>, k: nat)
    requires interval > 0 && |dues| == |afters| + 1
    requires forall i :: 0 <= i < |afters| ==> dues[i + 1] == IntervalDue(interval, dues[i], afters[i])
    requires k < |dues|
    ensures InPhase(dues[0], interval, dues[k])
    ensures k > 0 ==> if afters[k - 1] < dues[k - 1] then dues[k] == dues[k - 1] else dues[k] >= dues[k - 1] + interval
  {
    if k == 0 {
      assert Nth(dues[0], interval, 0) == dues[0];
    } else {
      IntervalKeepsPhase(interval, dues, afters, k - 1);
      IntervalDueIsNext(interval, dues[k - 1], afters[k - 1]);
      PhaseIsShared(dues[0], interval, dues[k - 1], dues[k]);
      var j :| Nth(dues[k - 1], interval, j) == dues[k];
      NthInOrder(dues[k - 1], interval, 0, j);
      assert Nth(dues[k - 1], interval, 0) == dues[k - 1];
    }
  }

  // ---------- Time triggers ----------

  ghost predicate IsNextDue(z: Zone, kind: TriggerKind, from: Instant, after: Instant, due: Instant)
    requires kind.OnInterval? ==> kind.interval > 0
  {
    match kind
    case OnInterval(interval) => due == IntervalDue(interval, from, after)
    case OnSchedule(schedule) => IsNextAfter(z, schedule, after, due)
    case OnReading(_, _) => false
  }

  ghost predicate ZoneOk(z: Zone) {
    WellFormed(z) && WholeMinutes(z)
  }

  ghost predicate TimeTrigger(kind: TriggerKind) {
    match kind
    case OnInterval(interval) => interval > 0
    case OnSchedule(schedule) => Schedules.Valid(schedule)
    case OnReading(_, _) => false
  }

  method NextDue(z: Zone, kind: TriggerKind, from: Instant, after: Instant, sides: int -> bool) returns (due: Instant)
    requires ZoneOk(z) && TimeTrigger(kind)
    ensures IsNextDue(z, kind, from, after, due) && due > after
  {
    if kind.OnInterval? {
      IntervalDueIsNext(kind.interval, from, after);
      due := IntervalDue(kind.interval, from, after);
    } else {
      due := NextAfter(z, kind.schedule, after, sides);
    }
  }

  // ---------- Catching up ----------

  /** The times a trigger comes due from a first one on, were nobody to stop it. */
  ghost predicate Occurs(z: Zone, kind: TriggerKind, first: Instant, t: Instant) {
    match kind
    case OnInterval(interval) => exists k: nat :: Nth(first, interval, k) == t
    case OnSchedule(schedule) => t == first
                                 || (t > first && exists day :: RunsOn(schedule, day) && DueOn(z, schedule, day) == t)
    case OnReading(_, _) => false
  }

  ghost predicate IsLastOccurrence(z: Zone, kind: TriggerKind, first: Instant, now: Instant, due: Instant) {
    && Occurs(z, kind, first, due) && due <= now
    && forall t :: Occurs(z, kind, first, t) && t <= now ==> t <= due
  }

  lemma NextDueIsNextOccurrence(z: Zone, kind: TriggerKind, first: Instant, due: Instant, next: Instant)
    requires TimeTrigger(kind) && Occurs(z, kind, first, due) && IsNextDue(z, kind, due, due, next)
    ensures Occurs(z, kind, first, next) && next > due
    ensures forall t :: Occurs(z, kind, first, t) && t > due ==> t >= next
  {
    if kind.OnInterval? {
      var k: nat :| Nth(first, kind.interval, k) == due;
      assert Nth(first, kind.interval, k + 1) == next;
      forall t | Occurs(z, kind, first, t) && t > due ensures t >= next {
        var m: nat :| Nth(first, kind.interval, m) == t;
        NthInOrder(first, kind.interval, k, m);
      }
    } else {
      assert due >= first;
    }
  }

  /** For an interval the last occurrence has a closed form. */
  lemma LastOccurrenceOfInterval(z: Zone, interval: nat, first: Instant, now: Instant, due: Instant)
    requires interval > 0 && first <= now && IsLastOccurrence(z, OnInterval(interval), first, now, due)
    ensures due == first + (now - first) / interval * interval
  {
    var n := (now - first) / interval;
    assert Nth(first, interval, n) <= now < Nth(first, interval, n + 1);
    assert n >= 0;
    assert Occurs(z, OnInterval(interval), first, Nth(first, interval, n));
    var k: nat :| Nth(first, interval, k) == due;
    if k < n {
      NthInOrder(first, interval, k, n);
    } else if k > n {
      NthInOrder(first, interval, k, n + 1);
    }
  }

  /** When the trigger came due last while the hub was down, if it did. */
  ghost predicate IsLastDue(z: Zone, a: Automation, trigger: Trigger, now: Instant, due: Option<Instant>) {
    if Armed(a) && trigger.nextDueAt.Some? && trigger.nextDueAt.value <= now then
      due.Some? && IsLastOccurrence(z, trigger.kind, trigger.nextDueAt.value, now, due.value)
    else due.None?
  }

  lemma LastDueIsUnique(z: Zone, a: Automation, trigger: Trigger, now: Instant, x: Option<Instant>, y: Option<Instant>)
    requires IsLastDue(z, a, trigger, now, x) && IsLastDue(z, a, trigger, now, y)
    ensures x == y
  {
  }

  method LastDueBefore(z: Zone, a: Automation, trigger: Trigger, now: Instant, sides: int -> bool)
    returns (last: Option<Instant>)
    requires ZoneOk(z) && TriggerOk(trigger)
    ensures IsLastDue(z, a, trigger, now, last)
  {
    if !IsArmed(a) || trigger.nextDueAt.None? || trigger.nextDueAt.value > now {
      return None;
    }
    var due := trigger.nextDueAt.value;
    assert trigger.kind.OnInterval? ==> Nth(due, trigger.kind.interval, 0) == due;
    while true
      invariant Occurs(z, trigger.kind, trigger.nextDueAt.value, due) && due <= now
      decreases now - due
    {
      var next := NextDue(z, trigger.kind, due, due, sides);
      NextDueIsNextOccurrence(z, trigger.kind, trigger.nextDueAt.value, due, next);
      if next > now {
        return Some(due);
      }
      due := next;
    }
  }

  datatype Overdue = Overdue(automation: Automation, trigger: Trigger, due: Instant)

  /** The due time is the last one that passed while the hub was down. */
  ghost predicate IsOverdue(z: Zone, now: Instant, o: Overdue) {
    IsLastDue(z, o.automation, o.trigger, now, Some(o.due))
  }

  /** Exactly one record for each of the triggers that came due longer than grace ago. */
  ghost predicate AllMissed(z: Zone, a: Automation, triggers: seq<Trigger>, now: Instant, grace: nat,
                            missed: seq<Overdue>) {
    && (forall o ::
          o in missed <==> o.automation == a && o.trigger in triggers && IsOverdue(z, now, o) && now - o.due > grace)
    && (forall i, j :: 0 <= i < j < |missed| ==> missed[i].trigger.id != missed[j].trigger.id)
  }

  /** The first of the triggers that came due within grace of now, if any did. */
  ghost predicate FirstInGrace(z: Zone, a: Automation, triggers: seq<Trigger>, now: Instant, grace: nat,
                               caughtUp: Option<Overdue>) {
    if caughtUp.Some? then
      && caughtUp.value.automation == a && IsOverdue(z, now, caughtUp.value) && now - grace <= caughtUp.value.due <= now
      && exists i ::
           0 <= i < |triggers| && triggers[i] == caughtUp.value.trigger && NoneInGrace(z, a, triggers[..i], now, grace)
    else NoneInGrace(z, a, triggers, now, grace)
  }

  ghost predicate NoneInGrace(z: Zone, a: Automation, triggers: seq<Trigger>, now: Instant, grace: nat) {
    forall o: Overdue :: o.automation == a && o.trigger in triggers && IsOverdue(z, now, o) ==> now - o.due > grace
  }

  lemma MissedMore(z: Zone, a: Automation, triggers: seq<Trigger>, trigger: Trigger, now: Instant, grace: nat,
                   missed: seq<Overdue>, last: Option<Instant>)
    requires AllMissed(z, a, triggers, now, grace, missed) && IsLastDue(z, a, trigger, now, last)
    requires forall t :: t in triggers ==> t.id != trigger.id
    ensures AllMissed(z, a, triggers + [trigger], now, grace,
                      if last.Some? && now - last.value > grace then missed + [Overdue(a, trigger, last.value)]
                      else missed)
  {
    forall o: Overdue | o.automation == a && o.trigger == trigger && IsOverdue(z, now, o) ensures last == Some(o.due) {
      LastDueIsUnique(z, a, trigger, now, last, Some(o.due));
    }
    assert forall o :: o in missed ==> o.trigger.id != trigger.id;
  }

  lemma GraceMore(z: Zone, a: Automation, triggers: seq<Trigger>, trigger: Trigger, now: Instant, grace: nat,
                  caughtUp: Option<Overdue>, last: Option<Instant>)
    requires FirstInGrace(z, a, triggers, now, grace, caughtUp) && IsLastDue(z, a, trigger, now, last)
    ensures FirstInGrace(z, a, triggers + [trigger], now, grace,
                         if caughtUp.None? && last.Some? && now - last.value <= grace then
                           Some(Overdue(a, trigger, last.value)) else caughtUp)
  {
    var more := triggers + [trigger];
    if caughtUp.Some? {
      var i :| 0 <= i < |triggers| && triggers[i] == caughtUp.value.trigger
        && NoneInGrace(z, a, triggers[..i], now, grace);
      assert more[i] == caughtUp.value.trigger && more[..i] == triggers[..i];
    } else {
      assert more[..|triggers|] == triggers;
      forall o: Overdue | o.automation == a && o.trigger == trigger && IsOverdue(z, now, o)
        ensures last == Some(o.due)
      {
        LastDueIsUnique(z, a, trigger, now, last, Some(o.due));
      }
    }
  }

  lemma NextTrigger(a: Automation, i: nat)
    requires AutomationOk(a) && i < |a.triggers|
    ensures TriggerOk(a.triggers[i]) && forall t :: t in a.triggers[..i] ==> t.id != a.triggers[i].id
    ensures a.triggers[..i + 1] == a.triggers[..i] + [a.triggers[i]]
  {
  }

  /**
   What one automation missed while the hub was down: a record for each trigger
   past grace, and at most one run to catch up with.
   */
  method OverdueTriggers(z: Zone, a: Automation, now: Instant, grace: nat, sides: int -> bool)
    returns (missed: seq<Overdue>, caughtUp: Option<Overdue>)
    requires ZoneOk(z) && AutomationOk(a)
    ensures AllMissed(z, a, a.triggers, now, grace, missed)
    ensures FirstInGrace(z, a, a.triggers, now, grace, caughtUp)
  {
    missed, caughtUp := [], None;
    for i := 0 to |a.triggers|
      invariant AllMissed(z, a, a.triggers[..i], now, grace, missed)
      invariant FirstInGrace(z, a, a.triggers[..i], now, grace, caughtUp)
    {
      hide AllMissed, FirstInGrace, IsLastDue, TriggerOk, ZoneOk, AutomationOk, Armed;
      NextTrigger(a, i);
      var trigger := a.triggers[i];
      var last := LastDueBefore(z, a, trigger, now, sides);
      MissedMore(z, a, a.triggers[..i], trigger, now, grace, missed, last);
      GraceMore(z, a, a.triggers[..i], trigger, now, grace, caughtUp, last);
      if last.None? {
      } else if now - last.value > grace {
        missed := missed + [Overdue(a, trigger, last.value)];
      } else if caughtUp.None? {
        caughtUp := Some(Overdue(a, trigger, last.value));
      }
    }
    assert a.triggers[..|a.triggers|] == a.triggers;
  }
}
