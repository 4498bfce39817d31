/** Automations and their triggers, as the engine holds them. */
module Automations {
  import opened Wrappers
  import opened RunTable
  import opened Schedules
  import opened Edges

  datatype Series = Series(sensor: int, measurementType: string)

  datatype TriggerKind =
    | OnSchedule(schedule: Schedule)
    | OnInterval(interval: nat)
    | OnReading(series: Series, condition: ReadingCondition)

  /** nextDueAt is when a time trigger was next due when it was read from the store, if it was ever armed. */
  datatype Trigger = Trigger(id: int, kind: TriggerKind, nextDueAt: Option<Instant>)

  datatype Automation = Automation(
    id: int,
    enabled: bool,
    mode: Mode,
    triggers: seq<Trigger>,
    steps: seq<Step>,
    brokenReason: string)

  /** Switched on, with nothing found wrong with it. */
  ghost predicate Armed(a: Automation) {
    a.enabled && a.brokenReason == ""
  }

  predicate IsArmed(a: Automation)
    ensures IsArmed(a) <==> Armed(a)
  {
    a.enabled && a.brokenReason == ""
  }

  /** A trigger reads the sensor, or a step sets it. */
  ghost predicate Uses(a: Automation, sensor: int) {
    || (exists t :: t in a.triggers && t.kind.OnReading? && t.kind.series.sensor == sensor)
    || (exists step :: step in a.steps && step.Set? && step.sensor == sensor)
  }

  method UsesSensor(a: Automation, sensor: int) returns (uses: bool)
    ensures uses <==> Uses(a, sensor)
  {
    for i := 0 to |a.triggers|
      invariant forall j ::
                  0 <= j < i ==> !(a.triggers[j].kind.OnReading? && a.triggers[j].kind.series.sensor == sensor)
    {
      if a.triggers[i].kind.OnReading? && a.triggers[i].kind.series.sensor == sensor {
        return true;
      }
    }
    for i := 0 to |a.steps|
      invariant forall j :: 0 <= j < i ==> !(a.steps[j].Set? && a.steps[j].sensor == sensor)
    {
      if a.steps[i].Set? && a.steps[i].sensor == sensor {
        return true;
      }
    }
    uses := false;
  }

  /** What saving a trigger checks. Only time triggers are ever given a due time. */
  ghost predicate TriggerOk(t: Trigger) {
    && t.id > 0
    && match t.kind
       case OnSchedule(schedule) => Schedules.Valid(schedule)
       case OnInterval(interval) => interval > 0
       case OnReading(_, _) => t.nextDueAt.None?
  }

  /** IDs are positive, and no trigger is listed twice. */
  ghost predicate AutomationOk(a: Automation) {
    && a.id > 0
    && (forall i :: 0 <= i < |a.triggers| ==> TriggerOk(a.triggers[i]))
    && (forall i, j :: 0 <= i < j < |a.triggers| ==> a.triggers[i].id != a.triggers[j].id)
  }
}
