/** The engine: what every edit, reading and due entry does to its maps. */
module Engines {
  import opened Wrappers
  import opened TimeZones
  import opened Edges
  import opened Automations
  import opened DueTimes
  import opened DueQueue
  import opened EngineIndexes
  import opened DuePhases
  import opened EngineEdges
  import EdgeHistories
  import opened FiringOrder

  /** A run to start: the automation, the trigger that asked for it, and the run whose command led to it. */
  datatype Start = Start(automation: Automation, trigger: Trigger, due: Instant, cause: Option<int>)

  function Later(a: Instant, b: Instant): Instant {
    if b > a then b else a
  }

  /** The automation with its triggers' due times forgotten. */
  ghost predicate DueCleared(a: Automation, b: Automation) {
    && b.id == a.id && b.enabled == a.enabled && b.mode == a.mode && b.steps == a.steps
    && b.brokenReason == a.brokenReason
    && |b.triggers| == |a.triggers|
    && forall i :: 0 <= i < |a.triggers| ==>
         b.triggers[i].id == a.triggers[i].id && b.triggers[i].kind == a.triggers[i].kind
         && b.triggers[i].nextDueAt == None
  }

  method ClearDue(a: Automation) returns (cleared: Automation)
    ensures DueCleared(a, cleared)
  {
    var triggers := [];
    for i := 0 to |a.triggers|
      invariant |triggers| == i && forall j :: 0 <= j < i ==> triggers[j] == a.triggers[j].(nextDueAt := None)
    {
      triggers := triggers + [a.triggers[i].(nextDueAt := None)];
    }
    cleared := a.(triggers := triggers);
  }

  lemma DueClearedOk(a: Automation, b: Automation)
    requires AutomationOk(a) && (b == a || DueCleared(a, b))
    ensures AutomationOk(b) && IdsOf(b, |b.triggers|) == IdsOf(a, |a.triggers|)
    ensures |b.triggers| == |a.triggers|
    ensures forall i ::
              0 <= i < |a.triggers| ==> b.triggers[i].id == a.triggers[i].id && b.triggers[i].kind == a.triggers[i].kind
  {
    forall id ensures id in IdsOf(b, |b.triggers|) <==> id in IdsOf(a, |a.triggers|) {
      assert forall i :: 0 <= i < |a.triggers| ==> b.triggers[i].id == a.triggers[i].id;
    }
  }

  /** An interval of an automation switched on counts from now. */
  lemma CountsFromNow(z: Zone, a: Automation, b: Automation, entries: map<DueKey, Instant>, now: Instant)
    requires DueCleared(a, b) && ArmedFrom(z, b, entries, now) && a.enabled && a.brokenReason == ""
    ensures forall i :: 0 <= i < |a.triggers| && a.triggers[i].kind.OnInterval? ==>
              var key := TriggerKey(a.triggers[i].id);
              key in entries && entries[key] == now + a.triggers[i].kind.interval
  {
    forall i | 0 <= i < |a.triggers| && a.triggers[i].kind.OnInterval?
      ensures TriggerKey(a.triggers[i].id) in entries
              && entries[TriggerKey(a.triggers[i].id)] == now + a.triggers[i].kind.interval
    {
      assert TriggerArmed(z, b.triggers[i], entries, now);
      NoTimePassed(a.triggers[i].kind.interval);
    }
  }

  lemma NoTimePassed(interval: nat)
    requires interval > 0
    ensures 0 / interval == 0
  {
  }

  lemma SameId(a: Automation, b: Automation)
    requires b == a || DueCleared(a, b)
    ensures b.id == a.id
  {
  }

  lemma SameTriggers(automations: map<int, Automation>, id: int, reason: string)
    requires id in automations
    ensures var a := automations[id].(brokenReason := reason);
            TriggerIds(automations, id) + IdsOf(a, |a.triggers|) == TriggerIds(automations, id)
  {
  }


  /** Dropping an automation frees its triggers' IDs to be put back. */
  lemma FreedIds(automations: map<int, Automation>, triggers: map<int, int>, a: Automation)
    requires IndexOk(automations, triggers)
    requires forall i :: 0 <= i < |a.triggers| && a.triggers[i].id in triggers ==> triggers[a.triggers[i].id] == a.id
    ensures forall i :: 0 <= i < |a.triggers| ==> a.triggers[i].id !in triggers - TriggerIds(automations, a.id)
  {
    forall i | 0 <= i < |a.triggers| && a.triggers[i].id in triggers
      ensures a.id in automations && HasTrigger(automations[a.id], a.triggers[i].id)
    {
    }
  }

  lemma RescheduledArms(s: Timeline, s': Timeline, listed: set<Trigger>, z: Zone)
    requires OnlyRescheduled(listed, z, s.entries, s'.entries, s'.clock)
    requires s'.clock >= s.clock && s' == s.(clock := s'.clock, entries := s'.entries)
    ensures Arms(s, s', [])
  {
    assert s'.log == s.log + Edits([]);
  }

  lemma FiredWaits(automations: map<int, Automation>, id: int, next: Instant, v: View, v': View)
    requires v.popped != [] && v.popped[0].key == TriggerKey(id) && v'.clock >= v.clock
    requires v' == v.(entries := v.entries[TriggerKey(id) := next], popped := v.popped[1..], clock := v'.clock)
    ensures EdgesMove(Call(automations, {}, Other), v, v')
  {
    hide EdgesMove;
    EdgesWait(Call(automations, {}, Other), v, v');
  }

  lemma RearmedWait(automations: map<int, Automation>, ids: set<int>, saved: map<int, Instant>,
                    saved': map<int, Instant>, v: View, v': View)
    requires OnlyTheirs(ids, v.entries, v'.entries, saved, saved') && v'.clock >= v.clock
             && v' == v.(entries := v'.entries, clock := v'.clock)
    ensures EdgesMove(Call(automations, {}, Other), v, v')
  {
    hide EdgesMove;
    EdgesWait(Call(automations, {}, Other), v, v');
  }

  /** The automations that do not use a sensor, and those not looked at yet. */
  ghost function NotUsing(automations: map<int, Automation>, left: set<int>, sensor: int): (kept: map<int, Automation>)
    ensures forall id :: id in kept <==> id in automations && (id in left || !Uses(automations[id], sensor))
    ensures forall id :: id in kept ==> kept[id] == automations[id]
  {
    map id | id in automations && (id in left || !Uses(automations[id], sensor)) :: automations[id]
  }

  ghost function EditedIds(ids: seq<int>): set<int> {
    set i | 0 <= i < |ids| :: ids[i]
  }

  lemma NoneForgotten(automations: map<int, Automation>, entries: map<DueKey, Instant>, lastDue: map<int, Instant>,
                      sensor: int)
    ensures NotUsing(automations, automations.Keys, sensor) == automations && AllOwned(automations, EditedIds([]), {})
    ensures NoneAdded(entries, entries) && lastDue - EditedIds([]) == lastDue
  {
  }

  lemma NotUsingStep(automations: map<int, Automation>, left: set<int>, id: int, sensor: int)
    requires id in left && id in automations
    ensures var kept := NotUsing(automations, left, sensor);
            NotUsing(automations, left - {id}, sensor) == if Uses(automations[id], sensor) then kept - {id} else kept
  {
  }

  lemma NoneAddedStill(a: map<DueKey, Instant>, b: map<DueKey, Instant>, c: map<DueKey, Instant>)
    requires NoneAdded(a, b) && NoneAdded(b, c)
    ensures NoneAdded(a, c)
  {
  }

  lemma OneMoreForgotten(lastDue: map<int, Instant>, ids: seq<int>, id: int)
    ensures lastDue - EditedIds(ids) - {id} == lastDue - EditedIds(ids + [id])
  {
    var more := ids + [id];
    assert more[|ids|] == id;
    forall other ensures other in EditedIds(more) <==> other in EditedIds(ids) || other == id {
      if other in EditedIds(ids) {
        var i :| 0 <= i < |ids| && ids[i] == other;
        assert more[i] == other;
      }
    }
  }

  lemma NoneArmedAfter(entries: map<DueKey, Instant>, now: Instant)
    ensures OnlyArmed(entries, entries, now)
  {
  }

  /** The triggers are those of automations forgotten. */
  ghost predicate AllOwned(automations: map<int, Automation>, edited: set<int>, ids: set<int>) {
    forall id :: id in ids ==> Owned(automations, edited, id)
  }

  /** The scheduler's entries are left alone but for those of the automations' triggers. */
  ghost predicate UnownedKept(automations: map<int, Automation>, edited: set<int>,
                              entries: map<DueKey, Instant>, entries': map<DueKey, Instant>) {
    forall key: DueKey ::
      key.kind.DueResume? || !Owned(automations, edited, key.id) ==> SameAt(entries, entries', key)
  }

  lemma OwnedAreKept(automations: map<int, Automation>, edited: set<int>, ids: set<int>,
                     entries: map<DueKey, Instant>, entries': map<DueKey, Instant>, saved: map<int, Instant>)
    requires OthersKept(ids, entries, entries', saved, saved) && AllOwned(automations, edited, ids)
    ensures UnownedKept(automations, edited, entries, entries')
  {
  }

  lemma MoreOwned(automations: map<int, Automation>, now: map<int, Automation>, forgotten: seq<int>, id: int,
                  ids: set<int>)
    requires AllOwned(automations, EditedIds(forgotten), ids)
    requires id in automations && id in now && now[id] == automations[id]
    ensures AllOwned(automations, EditedIds(forgotten + [id]), ids + TriggerIds(now, id))
  {
    OneMoreForgotten(map[], forgotten, id);
    var edited := EditedIds(forgotten + [id]);
    assert (forgotten + [id])[|forgotten|] == id;
    forall t | t in ids ensures Owned(automations, edited, t) {
      var a :| a in EditedIds(forgotten) && a in automations && HasTrigger(automations[a], t);
      var i :| 0 <= i < |forgotten| && forgotten[i] == a;
      assert (forgotten + [id])[i] == a;
    }
    forall t | t in TriggerIds(now, id) ensures Owned(automations, edited, t) {
      assert HasTrigger(automations[id], t);
    }
  }

  lemma AllOwnedMove(automations: map<int, Automation>, edited: set<int>, ids: set<int>, v: View, v': View)
    requires RenewedOnly(ids, v.edges, v'.edges, v.entries, v'.entries) && AllOwned(automations, edited, ids)
    requires v'.popped == v.popped && v'.clock >= v.clock && v'.seen == v.seen
    ensures EdgesMove(Call(automations, edited, Other), v, v')
  {
    hide RenewedOnly, EdgesMove;
    EdgesRenewed(Call(automations, edited, Other), ids, v, v');
  }

  lemma ForgetArms(s: Timeline, s': Timeline, ids: seq<int>)
    requires NoneAdded(s.entries, s'.entries)
    requires s'.clock >= s.clock && s'.horizon == s.horizon && s'.popped == s.popped
    requires s'.lastDue == s.lastDue - EditedIds(ids) && s'.log == s.log + Edits(ids)
    ensures Arms(s, s', ids)
  {
  }

  lemma ArmedAreKept(ids: set<int>, a: Automation, entries: map<DueKey, Instant>, entries': map<DueKey, Instant>,
                     saved: map<int, Instant>, saved': map<int, Instant>)
    requires OthersKept(ids + ArmedIds(a), entries, entries', saved, saved')
    ensures OthersKept(ids + IdsOf(a, |a.triggers|), entries, entries', saved, saved')
  {
  }

  lemma EditArms(s: Timeline, s': Timeline, id: int, dropped: map<DueKey, Instant>)
    requires NoneAdded(s.entries, dropped) && OnlyArmed(dropped, s'.entries, s'.clock)
    requires s'.clock >= s.clock && s'.horizon == s.horizon && s'.popped == s.popped
    requires s'.lastDue == s.lastDue - {id} && s'.log == s.log + Edits([id])
    ensures Arms(s, s', [id])
  {
    var ids := set i | 0 <= i < |[id]| :: [id][i];
    assert [id][0] in ids;
    assert ids == {id};
  }

  /** The first popped trigger fires for its automation, and asks for a run unless the due time already had one. */
  ghost predicate TriggerFires(s: Timeline, s': Timeline, z: Zone, a: Automation, start: Option<Start>) {
    exists t, next ::
      && t in a.triggers && TimeTrigger(t.kind) && s.popped != [] && s.popped[0].key == TriggerKey(t.id)
      && IsNextDue(z, t.kind, s.popped[0].due, if s'.clock > s.popped[0].due then s'.clock else s.popped[0].due, next)
      && Fires(s, s', a.id, next)
      && start == if a.id in s.lastDue && s.lastDue[a.id] == s.popped[0].due then None
         else Some(Start(a, t, s.popped[0].due, None))
  }

  /** The run a hold asks for: of the armed automation that has the trigger, for the hold's cause. */
  ghost predicate HoldStarts(automations: map<int, Automation>, id: int, due: Instant, cause: Option<int>,
                             start: Option<Start>) {
    && start.Some? && start.value.due == due && start.value.cause == cause
    && start.value.trigger.id == id && start.value.trigger in start.value.automation.triggers
    && start.value.automation.id in automations && automations[start.value.automation.id] == start.value.automation
    && Armed(start.value.automation)
  }

  ghost predicate FiresOn(t: Trigger, reading: Reading, now: Instant, edges: map<int, EdgeState>) {
    t.kind.OnReading? && t.id in edges && Observed(edges[t.id], t.kind.condition, reading, now).1.Fire?
  }

  /** One run for each automation with a trigger that fires, and none for any other. */
  ghost predicate StartsFor(automations: map<int, Automation>, triggers: map<int, int>, list: seq<Trigger>,
                            reading: Reading, cause: Option<int>,
                            now: Instant, edges: map<int, EdgeState>, fired: seq<Start>) {
    && (forall k :: 0 <= k < |fired| ==> StartedBy(automations, triggers, list, reading, cause, now, edges, fired[k]))
    && (forall t ::
          t in list && FiresOn(t, reading, now, edges) ==> t.id in triggers && triggers[t.id] in StartedIds(fired))
    && (forall j, k :: 0 <= j < k < |fired| ==> fired[j].automation.id != fired[k].automation.id)
  }

  ghost predicate StartedBy(automations: map<int, Automation>, triggers: map<int, int>, list: seq<Trigger>,
                            reading: Reading, cause: Option<int>,
                            now: Instant, edges: map<int, EdgeState>, start: Start) {
    var t := start.trigger;
    && t in list && FiresOn(t, reading, now, edges)
    && t.id in triggers && triggers[t.id] in automations && start == Start(automations[triggers[t.id]], t, now, cause)
    && start.automation.enabled && start.automation.brokenReason == ""
  }

  ghost function StartedIds(fired: seq<Start>): set<int> {
    set k | 0 <= k < |fired| :: fired[k].automation.id
  }

  lemma StartedMore(fired: seq<Start>, start: Start)
    ensures StartedIds(fired + [start]) == StartedIds(fired) + {start.automation.id}
  {
    var more := fired + [start];
    assert more[|fired|] == start;
    forall id | id in StartedIds(fired) ensures id in StartedIds(more) {
      var k :| 0 <= k < |fired| && fired[k].automation.id == id;
      assert more[k] == fired[k];
    }
  }

  lemma NoneStarted()
    ensures StartedIds([]) == {}
  {
  }

  lemma NoneSeen(automations: map<int, Automation>, triggers: map<int, int>, reading: Reading, cause: Option<int>,
                 now: Instant,
                 edges: map<int, EdgeState>, entries: map<DueKey, Instant>)
    ensures AllSeen([], reading, cause, now, edges, edges, entries, entries)
    ensures StartsFor(automations, triggers, [], reading, cause, now, edges, [])
  {
  }

  /** The next trigger's automation is started if the trigger fires and the automation has not been already. */
  lemma StartsMore(automations: map<int, Automation>, triggers: map<int, int>, list: seq<Trigger>, t: Trigger,
                   reading: Reading, cause: Option<int>,
                   now: Instant, edges: map<int, EdgeState>, fired: seq<Start>)
    requires StartsFor(automations, triggers, list, reading, cause, now, edges, fired)
    requires t.id in triggers && triggers[t.id] in automations && automations[triggers[t.id]].id == triggers[t.id]
             && Armed(automations[triggers[t.id]])
    ensures var a := automations[triggers[t.id]];
            StartsFor(automations, triggers, list + [t], reading, cause, now, edges,
                      if FiresOn(t, reading, now, edges) && a.id !in StartedIds(fired) then
                        fired + [Start(a, t, now, cause)] else fired)
  {
    hide FiresOn, StartedIds, StartedBy;
    var a := automations[triggers[t.id]];
    var start := Start(a, t, now, cause);
    StartedByMore(automations, triggers, list, t, reading, cause, now, edges);
    StartedMore(fired, start);
    NotStarted(fired, a.id);
    assert forall u :: u in list + [t] <==> u in list || u == t;
    if FiresOn(t, reading, now, edges) && a.id !in StartedIds(fired) {
      var more := fired + [start];
      forall j, k | 0 <= j < k < |more| ensures more[j].automation.id != more[k].automation.id {
        assert more[j] == fired[j];
        assert k < |fired| ==> more[k] == fired[k];
      }
      assert StartsFor(automations, triggers, list + [t], reading, cause, now, edges, more);
    } else {
      assert StartsFor(automations, triggers, list + [t], reading, cause, now, edges, fired);
    }
  }

  lemma StartedByMore(automations: map<int, Automation>, triggers: map<int, int>, list: seq<Trigger>, t: Trigger,
                      reading: Reading, cause: Option<int>,
                      now: Instant, edges: map<int, EdgeState>)
    ensures forall s :: StartedBy(automations, triggers, list, reading, cause, now, edges, s)
                    ==> StartedBy(automations, triggers, list + [t], reading, cause, now, edges, s)
    ensures FiresOn(t, reading, now, edges) && t.id in triggers && triggers[t.id] in automations
            && Armed(automations[triggers[t.id]]) ==>
              StartedBy(automations, triggers, list + [t], reading, cause, now, edges,
                        Start(automations[triggers[t.id]], t, now, cause))
  {
    hide FiresOn;
  }

  lemma NotStarted(fired: seq<Start>, id: int)
    ensures id !in StartedIds(fired) ==> forall k :: 0 <= k < |fired| ==> fired[k].automation.id != id
  {
  }

  /** The triggers that fire on the reading in their own histories are those that runs are started for. */
  lemma FiresAreStarted(automations: map<int, Automation>, triggers: map<int, int>, list: seq<Trigger>, t: Trigger,
                        reading: Reading,
                        cause: Option<int>, now: Instant, v: View, s: EdgeHistories.State, fired: seq<Start>)
    requires StartsFor(automations, triggers, list, reading, cause, now, v.edges, fired)
    requires t in list && t.kind.OnReading? && t.id in v.edges && Shows(v, t.id, s) && s.seen <= now <= s.clock
    ensures var log := EdgeHistories.Apply(t.kind.condition, s, EdgeHistories.See(reading, cause, now)).log;
            && (EdgeHistories.Fires(log[|log| - 1]) ==> t.id in triggers && triggers[t.id] in StartedIds(fired))
            && (forall k ::
                  0 <= k < |fired| && fired[k].trigger == t ==>
                    EdgeHistories.Fires(log[|log| - 1]) && fired[k].cause == cause)
  {
    hide Observed;
    forall k | 0 <= k < |fired| && fired[k].trigger == t
      ensures FiresOn(t, reading, now, v.edges) && fired[k].cause == cause
    {
      assert StartedBy(automations, triggers, list, reading, cause, now, v.edges, fired[k]);
    }
  }

  lemma SeenArms(s: Timeline, s': Timeline, list: seq<Trigger>, reading: Reading, cause: Option<int>, now: Instant,
                 edges: map<int, EdgeState>, edges': map<int, EdgeState>)
    requires AllSeen(list, reading, cause, now, edges, edges', s.entries, s'.entries)
    requires s'.clock >= s.clock && s' == s.(clock := s'.clock, entries := s'.entries)
    ensures Arms(s, s', [])
  {
    hide Observed;
    assert s'.log == s.log + Edits([]);
    forall key | key in s'.entries && key.kind.DueTrigger? ensures SameAt(s.entries, s'.entries, key) {}
  }

  lemma PopsNow(s: Timeline, due: seq<Popped>, now: Instant)
    requires s.popped == [] && now >= s.clock && PopsAllDue(s.entries, due, now)
    ensures Pops(s, Timeline(now, now, LaterThan(s.entries, now), due, s.lastDue, s.log))
  {
  }

  lemma FiresNow(s: Timeline, now: Instant, z: Zone, a: Automation, t: Trigger, next: Instant)
    requires t in a.triggers && TimeTrigger(t.kind) && s.popped != [] && s.popped[0].key == TriggerKey(t.id)
    requires var due := s.popped[0].due;
             now >= s.clock && next > Later(due, now) && IsNextDue(z, t.kind, due, Later(due, now), next)
    ensures var due := s.popped[0].due;
            var duplicate := a.id in s.lastDue && s.lastDue[a.id] == due;
            TriggerFires(s, Timeline(now, s.horizon, s.entries[TriggerKey(t.id) := next], s.popped[1..],
                                     s.lastDue[a.id := due],
                                     s.log + [Fired(a.id, t.id, due, !duplicate)]),
                         z, a, if duplicate then None else Some(Start(a, t, due, None)))
  {
    var due := s.popped[0].due;
    var duplicate := a.id in s.lastDue && s.lastDue[a.id] == due;
    var s' := Timeline(now, s.horizon, s.entries[TriggerKey(t.id) := next], s.popped[1..], s.lastDue[a.id := due],
                       s.log + [Fired(a.id, t.id, due, !duplicate)]);
    assert Fires(s, s', a.id, next);
  }

  /** What all automations missed, in order. */
  ghost function AllMissedOf(found: seq<(seq<Overdue>, Option<Overdue>)>): seq<Overdue> {
    if found == [] then [] else AllMissedOf(found[..|found| - 1]) + found[|found| - 1].0
  }

  ghost function AllCaughtUp(found: seq<(seq<Overdue>, Option<Overdue>)>): seq<Overdue> {
    if found == [] then []
    else AllCaughtUp(found[..|found| - 1]) + if found[|found| - 1].1.Some? then [found[|found| - 1].1.value] else []
  }

  ghost function CaughtUpEvents(catchUp: seq<Overdue>): seq<Event> {
    seq(|catchUp|, i requires 0 <= i < |catchUp| => Fired(catchUp[i].automation.id, catchUp[i].trigger.id,
                                                          catchUp[i].due, true))
  }

  // ---------- Due times kept ----------

  ghost function ScheduledIds(listed: set<Trigger>): set<int> {
    set t | t in listed && t.kind.OnSchedule? :: t.id
  }

  lemma OthersIds(automations: map<int, Automation>, triggers: map<int, int>, a: Automation)
    requires IndexOk(automations, triggers)
    requires forall i :: 0 <= i < |a.triggers| && a.triggers[i].id in triggers ==> triggers[a.triggers[i].id] == a.id
    ensures forall b, id, interval: nat ::
              b in automations && b !in {a.id} && HasInterval(automations[b], id, interval) ==> id !in ArmedIds(a)
  {
    forall b, id, interval: nat | b in automations && b != a.id && HasInterval(automations[b], id, interval)
      ensures id !in ArmedIds(a)
    {
      assert HasTrigger(automations[b], id);
      assert triggers[id] == b;
    }
  }

  lemma SchedulesAreNoIntervals(automations: map<int, Automation>, triggers: map<int, int>)
    requires IndexOk(automations, triggers)
    ensures forall a, id, interval: nat ::
              a in automations && a !in {} && HasInterval(automations[a], id, interval) ==>
                id !in ScheduledIds(Listed(automations))
  {
    forall a, id, interval: nat
      | a in automations && HasInterval(automations[a], id, interval) && id in ScheduledIds(Listed(automations))
      ensures false
    {
      var t :| t in Listed(automations) && t.kind.OnSchedule? && t.id == id;
      OneKindPerId(automations, triggers, t);
    }
  }

  lemma OneKindPerId(automations: map<int, Automation>, triggers: map<int, int>, t: Trigger)
    requires IndexOk(automations, triggers) && t in Listed(automations)
    ensures forall a, interval: nat ::
              a in automations && HasInterval(automations[a], t.id, interval) ==> t.kind == OnInterval(interval)
  {
    forall a, interval: nat | a in automations && HasInterval(automations[a], t.id, interval)
      ensures t.kind == OnInterval(interval)
    {
      var i :| 0 <= i < |automations[a].triggers| && automations[a].triggers[i].id == t.id
        && automations[a].triggers[i].kind == OnInterval(interval);
      OneTriggerPerId(automations, triggers, a, i, t);
    }
  }

  lemma NoneAddedAtAll(entries: map<DueKey, Instant>)
    ensures NoneAdded(entries, entries)
  {
  }

  lemma NoneAddedKeepsPhase(automations: map<int, Automation>, edited: set<int>, s: Agenda, s': Agenda)
    requires NoneAdded(s.entries, s'.entries) && s'.popped == s.popped && s'.saved == s.saved
    ensures KeepsPhase(automations, edited, s, s')
  {
    NothingNew(automations, edited, s, s');
  }

  lemma PopKeepsPhase(automations: map<int, Automation>, s: Agenda, due: seq<Popped>, now: Instant)
    requires PopsAllDue(s.entries, due, now)
    ensures KeepsPhase(automations, {}, s, Agenda(LaterThan(s.entries, now), due, s.saved))
  {
    NothingNew(automations, {}, s, Agenda(LaterThan(s.entries, now), due, s.saved));
  }

  lemma PassKeepsPhase(automations: map<int, Automation>, s: Agenda)
    requires s.popped != []
    ensures KeepsPhase(automations, {}, s, s.(popped := s.popped[1..]))
  {
    NothingNew(automations, {}, s, s.(popped := s.popped[1..]));
  }

  lemma FiredKeepsPhase(automations: map<int, Automation>, triggers: map<int, int>, z: Zone, s: Agenda, t: Trigger,
                        after: Instant, next: Instant)
    requires s.popped != [] && s.popped[0].key == TriggerKey(t.id) && TimeTrigger(t.kind)
             && IsNextDue(z, t.kind, s.popped[0].due, after, next)
    requires IndexOk(automations, triggers) && t in Listed(automations)
    ensures KeepsPhase(automations, {}, s,
                       Agenda(s.entries[TriggerKey(t.id) := next], s.popped[1..], s.saved[t.id := next]))
  {
    OneKindPerId(automations, triggers, t);
    FireKeepsPhase(automations, s, t.id, t.kind, after, next);
  }

  lemma SeenKeepsPhase(automations: map<int, Automation>, s: Agenda, s': Agenda, list: seq<Trigger>, reading: Reading,
                       cause: Option<int>, now: Instant,
                       edges: map<int, EdgeState>, edges': map<int, EdgeState>)
    requires AllSeen(list, reading, cause, now, edges, edges', s.entries, s'.entries) && s' == s.(entries := s'.entries)
    ensures KeepsPhase(automations, {}, s, s')
  {
    hide Observed;
    forall key | key in s'.entries && key.kind.DueTrigger? ensures SameAt(s.entries, s'.entries, key) {}
    NothingNew(automations, {}, s, s');
  }

  // ---------- Startup ----------

  /** The i-th automation shares neither its ID nor its triggers' with one before it. */
  ghost predicate Apart(list: seq<Automation>, i: nat)
    requires i < |list|
  {
    forall j ::
      0 <= j < i ==>
        list[j].id != list[i].id
        && forall n :: 0 <= n < |list[i].triggers| ==> !HasTrigger(list[j], list[i].triggers[n].id)
  }

  ghost predicate AllIn(list: seq<Automation>, automations: map<int, Automation>) {
    && (forall i :: 0 <= i < |list| ==> list[i].id in automations && automations[list[i].id] == list[i])
    && (forall id :: id in automations ==> exists i :: 0 <= i < |list| && list[i].id == id)
  }

  ghost predicate LaterOnly(entries: map<DueKey, Instant>, now: Instant) {
    forall key :: key in entries ==> key.kind.DueTrigger? && entries[key] > now
  }

  /** The log holds the runs caught up with, at most one for each automation. */
  ghost predicate StartupOk(automations: map<int, Automation>, lastDue: map<int, Instant>, log: seq<Event>,
                            now: Instant) {
    && lastDue.Keys <= automations.Keys
    && (forall k :: 0 <= k < |log| ==> CaughtUpIn(automations, lastDue, log[k], now))
    && (forall j, k ::
          0 <= j < k < |log| ==> log[j].automation != log[k].automation && log[j].trigger != log[k].trigger)
    && (forall id :: id in lastDue ==> exists k :: 0 <= k < |log| && log[k].automation == id)
  }

  ghost predicate CaughtUpIn(automations: map<int, Automation>, lastDue: map<int, Instant>, e: Event, now: Instant) {
    && e.Fired? && e.started && e.due <= now
    && e.automation in automations && HasTrigger(automations[e.automation], e.trigger)
    && e.automation in lastDue && lastDue[e.automation] == e.due
  }

  /** An automation read from the store has its time triggers' due times as they were saved last. */
  ghost predicate NextDueSaved(a: Automation, saved: map<int, Instant>) {
    forall i :: 0 <= i < |a.triggers| && !a.triggers[i].kind.OnReading? ==>
      a.triggers[i].nextDueAt == if a.triggers[i].id in saved then Some(saved[a.triggers[i].id]) else None
  }

  /** Each automation's triggers are armed, and nothing is saved but for those. */
  ghost predicate AllArmed(z: Zone, list: seq<Automation>, entries: map<DueKey, Instant>,
                           savedBefore: map<int, Instant>, saved: map<int, Instant>, now: Instant) {
    && (forall i :: 0 <= i < |list| ==> ArmedFrom(z, list[i], entries, now))
    && (forall id :: (forall i :: 0 <= i < |list| ==> id !in ArmedIds(list[i])) ==> SavedSame(savedBefore, saved, id))
  }

  lemma NoneArmed(z: Zone, entries: map<DueKey, Instant>, saved: map<int, Instant>, now: Instant)
    ensures AllArmed(z, [], entries, saved, saved, now)
  {
  }

  lemma AllArmedFrom(z: Zone, list: seq<Automation>, entries: map<DueKey, Instant>, savedBefore: map<int, Instant>,
                     saved: map<int, Instant>, now: Instant)
    requires AllArmed(z, list, entries, savedBefore, saved, now)
    ensures forall i :: 0 <= i < |list| ==> ArmedFrom(z, list[i], entries, now)
  {
  }

  /** Arming one more automation leaves those armed before as they are. */
  lemma ArmedMore(z: Zone, list: seq<Automation>, i: nat, entries: map<DueKey, Instant>, entries': map<DueKey, Instant>,
                  savedBefore: map<int, Instant>, saved: map<int, Instant>, saved': map<int, Instant>, now: Instant)
    requires i < |list| && Apart(list, i) && AllArmed(z, list[..i], entries, savedBefore, saved, now)
    requires OnlyTheirs(ArmedIds(list[i]), entries, entries', saved, saved') && ArmedFrom(z, list[i], entries', now)
    ensures AllArmed(z, list[..i + 1], entries', savedBefore, saved', now)
  {
    var (before, after) := (list[..i], list[..i + 1]);
    assert after == before + [list[i]];
    forall j | 0 <= j < i ensures ArmedFrom(z, list[j], entries', now) {
      assert list[j] == before[j] && ArmedFrom(z, before[j], entries, now);
      forall n | 0 <= n < |list[j].triggers| ensures SameAt(entries, entries', TriggerKey(list[j].triggers[n].id)) {
        assert HasTrigger(list[j], list[j].triggers[n].id);
      }
      hide IsNextDue;
    }
    forall id | (forall j :: 0 <= j < |after| ==> id !in ArmedIds(after[j]))
      ensures SavedSame(savedBefore, saved', id)
    {
      assert after[i] == list[i];
      assert forall j :: 0 <= j < i ==> before[j] == after[j];
      assert SavedSame(savedBefore, saved, id) && SavedSame(saved, saved', id);
    }
  }

  /** What startup arms an interval trigger for follows from what was saved for it. */
  lemma LoadKeepsPhase(z: Zone, list: seq<Automation>, automations: map<int, Automation>, triggers: map<int, int>,
                       series: map<Series, seq<Trigger>>,
                       edges: map<int, EdgeState>, entries: map<DueKey, Instant>, savedBefore: map<int, Instant>,
                       saved: map<int, Instant>, now: Instant)
    requires AllIn(list, automations) && IndexOk(automations, triggers)
             && Agree(Listed(automations), series, edges, entries, [])
    requires EntriesSaved(entries, saved) && AllArmed(z, list, entries, savedBefore, saved, now)
    requires forall i :: 0 <= i < |list| ==> NextDueSaved(list[i], savedBefore)
    ensures KeepsPhase(automations, {}, Agenda(map[], [], savedBefore), Agenda(entries, [], saved))
  {
    var (s, s') := (Agenda(map[], [], savedBefore), Agenda(entries, [], saved));
    forall a, id, interval: nat | a in automations && interval > 0 && HasInterval(automations[a], id, interval)
      ensures DuePhases.Step(s, s', id, interval)
    {
      if id in savedBefore {
        var i :| 0 <= i < |list| && list[i].id == a;
        if Armed(list[i]) {
          ArmedFollows(z, list[i], s, s', id, interval, now);
        } else {
          DisarmedStays(list, automations, triggers, i, id);
          assert TriggerKey(id) in entries ==> id in TimeIds(Listed(automations));
          assert SavedSame(savedBefore, saved, id);
          forall due | IsDue(s', id, due) ensures IsDue(s, id, due) {}
        }
      }
    }
  }

  lemma ArmedFollows(z: Zone, a: Automation, s: Agenda, s': Agenda, id: int, interval: nat, now: Instant)
    requires Armed(a) && HasInterval(a, id, interval) && interval > 0 && id in s.saved && NextDueSaved(a, s.saved)
    requires ArmedFrom(z, a, s'.entries, now) && EntriesSaved(s'.entries, s'.saved) && s'.popped == []
    ensures DuePhases.Step(s, s', id, interval)
  {
    var n :| 0 <= n < |a.triggers| && a.triggers[n].id == id && a.triggers[n].kind == OnInterval(interval);
    assert TriggerArmed(z, a.triggers[n], s'.entries, now);
    var next := IntervalDue(interval, s.saved[id], now);
    assert IsDue(s, id, s.saved[id]);
    assert s'.entries[TriggerKey(id)] == next && s'.saved[id] == next;
    forall due | IsDue(s', id, due) ensures due == next {}
    assert Follows(s, id, interval, next);
  }

  lemma DisarmedStays(list: seq<Automation>, automations: map<int, Automation>, triggers: map<int, int>, i: nat,
                      id: int)
    requires AllIn(list, automations) && IndexOk(automations, triggers)
    requires i < |list| && !Armed(list[i]) && HasTrigger(list[i], id)
    ensures id !in TimeIds(Listed(automations)) && forall j :: 0 <= j < |list| ==> id !in ArmedIds(list[j])
  {
    assert automations[list[i].id] == list[i] && HasTrigger(automations[list[i].id], id);
    assert triggers[id] == list[i].id;
    if t :| t in Listed(automations) && !t.kind.OnReading? && t.id == id {
      ListedAreOwned(automations, triggers, t);
    }
    forall j | 0 <= j < |list| && id in ArmedIds(list[j]) ensures list[j].id == list[i].id {
      assert HasTrigger(automations[list[j].id], id) && triggers[id] == list[j].id;
    }
  }

  /** IDs are not shared between the automations loaded, and due times are those saved. */
  ghost predicate LoadOk(timed: iset<int>, list: seq<Automation>, i: nat, saved: map<int, Instant>)
    requires i < |list|
  {
    && AutomationOk(list[i])
    && (forall n :: 0 <= n < |list[i].triggers| ==> KindOk(timed, list[i].triggers[n]))
    && Apart(list, i)
    && NextDueSaved(list[i], saved)
  }

  lemma NothingLoaded(automations: map<int, Automation>, lastDue: map<int, Instant>, log: seq<Event>, now: Instant)
    requires automations == map[] && lastDue == map[] && log == []
    ensures AllIn([], automations) && LaterOnly(map[], now) && StartupOk(automations, lastDue, log, now)
    ensures log == CaughtUpEvents([]) && AllMissedOf([]) == [] && AllCaughtUp([]) == []
  {
  }

  lemma NewIds(list: seq<Automation>, i: nat, automations: map<int, Automation>, triggers: map<int, int>)
    requires i < |list| && Apart(list, i) && AllIn(list[..i], automations) && IndexOk(automations, triggers)
    ensures list[i].id !in automations
            && forall n :: 0 <= n < |list[i].triggers| ==> list[i].triggers[n].id !in triggers
    ensures forall id, n ::
              id in automations && 0 <= n < |list[i].triggers| ==> !HasTrigger(automations[id], list[i].triggers[n].id)
  {
    forall id | id in automations ensures exists j :: 0 <= j < i && list[j].id == id && automations[id] == list[j] {
      var j :| 0 <= j < i && list[..i][j].id == id;
      assert list[j] == list[..i][j];
    }
  }

  lemma FoundMore(found: seq<(seq<Overdue>, Option<Overdue>)>, last: (seq<Overdue>, Option<Overdue>))
    ensures AllMissedOf(found + [last]) == AllMissedOf(found) + last.0
    ensures AllCaughtUp(found + [last]) == AllCaughtUp(found) + if last.1.Some? then [last.1.value] else []
  {
    assert (found + [last])[..|found|] == found;
  }

  lemma EventsMore(catchUp: seq<Overdue>, z: Zone, a: Automation, now: Instant, grace: nat, caughtUp: Option<Overdue>)
    requires FirstInGrace(z, a, a.triggers, now, grace, caughtUp)
    ensures caughtUp.Some? ==>
              CaughtUpEvents(catchUp + [caughtUp.value]) == CaughtUpEvents(catchUp) +
                [Fired(a.id, caughtUp.value.trigger.id, caughtUp.value.due, true)]
  {
  }

  lemma StartupMore(automations: map<int, Automation>, lastDue: map<int, Instant>, log: seq<Event>, z: Zone,
                    a: Automation, now: Instant, grace: nat,
                    caughtUp: Option<Overdue>)
    requires StartupOk(automations, lastDue, log, now) && FirstInGrace(z, a, a.triggers, now, grace, caughtUp)
             && a.id !in automations
    requires forall id, n ::
               id in automations && 0 <= n < |a.triggers| ==> !HasTrigger(automations[id], a.triggers[n].id)
    ensures if caughtUp.None? then StartupOk(automations[a.id := a], lastDue, log, now)
            else StartupOk(automations[a.id := a], lastDue[a.id := caughtUp.value.due],
                           log + [Fired(a.id, caughtUp.value.trigger.id, caughtUp.value.due, true)], now)
  {
    hide NoneInGrace, IsOverdue;
    var automations' := automations[a.id := a];
    assert forall k :: 0 <= k < |log| ==> CaughtUpIn(automations', lastDue, log[k], now);
    if caughtUp.Some? {
      var lastDue' := lastDue[a.id := caughtUp.value.due];
      var e := Fired(a.id, caughtUp.value.trigger.id, caughtUp.value.due, true);
      var log' := log + [e];
      assert HasTrigger(a, e.trigger);
      assert CaughtUpIn(automations', lastDue', e, now);
      forall k | 0 <= k < |log|
        ensures CaughtUpIn(automations', lastDue', log'[k], now) && log'[k].automation != a.id
                && log'[k].trigger != e.trigger
      {
        assert log'[k] == log[k] && CaughtUpIn(automations, lastDue, log[k], now);
        assert !HasTrigger(automations[log[k].automation], e.trigger);
      }
      forall id | id in lastDue' ensures exists k :: 0 <= k < |log'| && log'[k].automation == id {
        if id == a.id {
          assert log'[|log|].automation == id;
        } else {
          var k :| 0 <= k < |log| && log[k].automation == id;
          assert log'[k].automation == id;
        }
      }
    }
  }

  lemma PutMore(list: seq<Automation>, i: nat, automations: map<int, Automation>)
    requires i < |list| && AllIn(list[..i], automations) && list[i].id !in automations
    ensures AllIn(list[..i + 1], automations[list[i].id := list[i]])
  {
    var (before, after) := (list[..i], list[..i + 1]);
    assert after == before + [list[i]];
    forall id | id in automations ensures exists j :: 0 <= j < |after| && after[j].id == id {
      var j :| 0 <= j < i && before[j].id == id;
      assert after[j].id == id;
    }
    assert after[i].id == list[i].id;
  }

  lemma LaterMore(entries: map<DueKey, Instant>, entries': map<DueKey, Instant>, now: Instant)
    requires LaterOnly(entries, now) && OnlyArmed(entries, entries', now)
    ensures LaterOnly(entries', now)
  {
  }

  lemma StartupInit(s: Timeline, automations: map<int, Automation>)
    requires s.popped == [] && s.horizon == s.clock && LaterOnly(s.entries, s.clock)
             && StartupOk(automations, s.lastDue, s.log, s.clock)
    ensures FiringOrder.Init(s) && s.lastDue.Keys <= automations.Keys
  {
    assert forall k :: 0 <= k < |s.log| ==> CaughtUpIn(automations, s.lastDue, s.log[k], s.clock);
  }

  /**
   Edges are kept by value, and the scheduler as the map from key to due time
   that it refines. popped is what the scheduler has taken out and not handed over yet.
   */
  class Engine {
    ghost const timed: iset<int>

    var zone: Zone
    var automations: map<int, Automation>
    var triggers: map<int, int>
    var lastDue: map<int, Instant>
    var series: map<Series, seq<Trigger>>
    var edges: map<int, EdgeState>
    var entries: map<DueKey, Instant>
    var popped: seq<Popped>
    /** The due times saved in the store. */
    var saved: map<int, Instant>

    ghost var clock: Instant
    ghost var horizon: Instant
    /** When the newest reading was noted. The worker notes it before it takes the lock. */
    ghost var seen: Instant
    ghost var log: seq<Event>

    ghost function Past(): Timeline
      reads this
    {
      Timeline(clock, horizon, entries, popped, lastDue, log)
    }

    ghost function Plan(): Agenda
      reads this
    {
      Agenda(entries, popped, saved)
    }

    ghost function Present(): View
      reads this
    {
      View(edges, entries, popped, clock, seen)
    }

    ghost predicate Indexed()
      reads this
    {
      && ZoneOk(zone)
      && IndexOk(automations, triggers)
      && KindsOk(timed, automations, popped)
      && EntriesSaved(entries, saved)
      && Agree(Listed(automations), series, edges, entries, popped)
    }

    ghost predicate Valid()
      reads this
    {
      Indexed() && lastDue.Keys <= automations.Keys
    }

    /** A new life of the hub knows only what the store saved. */
    constructor (zone: Zone, now: Instant, saved: map<int, Instant>, ghost timed: iset<int>)
      requires ZoneOk(zone)
      ensures Valid() && automations == map[] && this.zone == zone && this.timed == timed
      ensures Past() == Timeline(now, now, map[], [], map[], []) && Plan() == Agenda(map[], [], saved)
      ensures Present() == View(map[], map[], [], now, now)
    {
      this.timed := timed;
      this.zone := zone;
      automations, triggers, lastDue, series, edges := map[], map[], map[], map[], map[];
      entries, popped, this.saved := map[], [], saved;
      clock, horizon, seen, log := now, now, now, [];
    }

    method ArmTriggerLocked(trigger: Trigger, from: Instant, after: Instant, sides: int -> bool) returns (due: Instant)
      requires ZoneOk(zone) && TimeTrigger(trigger.kind)
      modifies this`entries, this`saved
      ensures IsNextDue(zone, trigger.kind, from, after, due) && due > after
      ensures entries == old(entries)[TriggerKey(trigger.id) := due] && saved == old(saved)[trigger.id := due]
    {
      due := NextDue(zone, trigger.kind, from, after, sides);
      entries := entries[TriggerKey(trigger.id) := due];
      saved := saved[trigger.id := due];
    }

    /** One turn of the loop over an automation's triggers in dropLocked. */
    method DropTrigger(trigger: Trigger, ghost listed: set<Trigger>)
      requires Agree(listed, series, edges, entries, popped) && EntriesSaved(entries, saved)
      requires forall u :: u in listed && u.id == trigger.id ==> u == trigger
      modifies this`entries, this`triggers, this`edges, this`series
      ensures Agree(listed - {trigger}, series, edges, entries, popped) && EntriesSaved(entries, saved)
      ensures triggers == old(triggers) - {trigger.id}
      ensures entries == old(entries) - {TriggerKey(trigger.id), HoldKey(trigger.id)}
              && edges == old(edges) - {trigger.id}
    {
      AgreeLoses(listed, series, edges, entries, popped, trigger);
      LessIsSaved(entries, saved, trigger.id);
      hide Agree, RemoveFromSeries, EntriesSaved, NoneAdded;
      entries := entries - {TriggerKey(trigger.id)} - {HoldKey(trigger.id)};
      triggers := triggers - {trigger.id};
      edges := edges - {trigger.id};
      if trigger.kind.OnReading? {
        series := RemoveFromSeries(series, trigger.kind.series, trigger.id);
      }
    }

    /** One turn of the loop in armLocked. */
    method ArmTrigger(trigger: Trigger, now: Instant, sides: int -> bool, ghost listed: set<Trigger>)
      requires ZoneOk(zone) && Agree(listed, series, edges, entries, popped) && EntriesSaved(entries, saved)
               && TriggerOk(trigger)
      requires forall u :: u in listed ==> u.id != trigger.id
      modifies this`entries, this`saved, this`edges, this`series
      ensures Agree(listed + {trigger}, series, edges, entries, popped) && EntriesSaved(entries, saved)
      ensures !trigger.kind.OnReading? ==> TriggerArmed(zone, trigger, entries, now)
      ensures entries == if trigger.kind.OnReading? then old(entries)
              else old(entries)[TriggerKey(trigger.id) := entries[TriggerKey(trigger.id)]]
      ensures saved == if trigger.kind.OnReading? then old(saved)
              else old(saved)[trigger.id := entries[TriggerKey(trigger.id)]]
      ensures edges == if trigger.kind.OnReading? then old(edges)[trigger.id := NEW_EDGE] else old(edges)
    {
      hide Agree, AddToSeries, IsNextDue;
      assert trigger !in listed;
      if trigger.kind.OnReading? {
        AgreeGains(listed, series, edges, entries, popped, trigger, now);
        series := AddToSeries(series, trigger.kind.series, trigger);
        edges := edges[trigger.id := NEW_EDGE];
      } else {
        var due := ArmTriggerLocked(trigger, trigger.nextDueAt.GetOr(now), now, sides);
        AgreeGains(listed, series, edges, old(entries), popped, trigger, due);
      }
    }

    method DropLocked(id: int)
      requires Valid()
      modifies this`automations, this`entries, this`triggers, this`edges, this`series, this`lastDue
      ensures Valid()
      ensures automations == old(automations) - {id} && lastDue == old(lastDue) - {id}
      ensures triggers == old(triggers) - TriggerIds(old(automations), id)
      ensures NoneAdded(old(entries), entries)
      ensures OthersKept(TriggerIds(old(automations), id), old(entries), entries, saved, saved)
      ensures RenewedOnly(TriggerIds(old(automations), id), old(edges), edges, old(entries), entries)
    {
      hide Agree, IndexOk, EntriesSaved, RenewedOnly, ZoneOk, KindsOk, NoneAdded, Listed, OthersKept;
      NoneRenewed({}, edges, entries);
      NoneAddedAtAll(entries);
      AllKept({}, entries, saved);
      if id !in automations {
        return;
      }
      var a := automations[id];
      ghost var listed := Listed(automations);
      NoTriggerYet(a, listed);
      for i := 0 to |a.triggers|
        modifies this`entries, this`triggers, this`edges, this`series
        invariant Agree(listed - TriggersOf(a, i), series, edges, entries, popped) && EntriesSaved(entries, saved)
        invariant triggers == old(triggers) - IdsOf(a, i)
        invariant NoneAdded(old(entries), entries) && OthersKept(IdsOf(a, i), old(entries), entries, saved, saved)
        invariant RenewedOnly(IdsOf(a, i), old(edges), edges, old(entries), entries)
      {
        ghost var (edgesWas, entriesWas) := (edges, entries);
        LessIsSaved(entries, saved, a.triggers[i].id);
        DroppedRenews(edges, entries, a.triggers[i].id);
        OnlyItsOwn(automations, old(triggers), id, i);
        DropTrigger(a.triggers[i], listed - TriggersOf(a, i));
        OneMoreTrigger(a, i, listed);
        RenewedMore(IdsOf(a, i), {a.triggers[i].id}, old(edges), edgesWas, edges, old(entries), entriesWas, entries);
        NoneAddedStill(old(entries), entriesWas, entries);
        MoreKept(IdsOf(a, i), {a.triggers[i].id}, old(entries), entriesWas, entries, saved, saved, saved);
      }
      ListedWithout(automations, old(triggers), id);
      IndexWithout(automations, old(triggers), id);
      KindsWithout(timed, automations, popped, id);
      automations := automations - {id};
      lastDue := lastDue - {id};
    }

    method IndexTriggers(a: Automation, ghost others: map<int, Automation>)
      requires IndexOk(others, triggers) && a.id !in others && AutomationOk(a)
      requires forall i :: 0 <= i < |a.triggers| ==> a.triggers[i].id !in triggers
      modifies this`triggers
      ensures IndexOk(others[a.id := a], triggers)
    {
      for i := 0 to |a.triggers|
        invariant triggers.Keys == old(triggers).Keys + IdsOf(a, i)
        invariant forall t :: t in triggers ==> triggers[t] == if t in old(triggers) then old(triggers)[t] else a.id
      {
        triggers := triggers[a.triggers[i].id := a.id];
      }
      IndexWith(others, old(triggers), a, triggers);
    }

    method PutLocked(a: Automation, now: Instant, sides: int -> bool)
      requires Indexed() && a.id !in automations && AutomationOk(a)
      requires forall i :: 0 <= i < |a.triggers| ==> a.triggers[i].id !in triggers && KindOk(timed, a.triggers[i])
      modifies this`automations, this`entries, this`triggers, this`edges, this`series, this`saved
      ensures Indexed()
      ensures automations == old(automations)[a.id := a]
      ensures OnlyArmed(old(entries), entries, now)
      ensures ArmedFrom(zone, a, entries, now)
      ensures OnlyTheirs(ArmedIds(a), old(entries), entries, old(saved), saved)
      ensures RenewedOnly(ArmedIds(a), old(edges), edges, old(entries), entries)
    {
      hide Agree, EntriesSaved, OnlyArmed, IndexOk, Listed, ArmedFrom, AutomationOk, OnlyTheirs, ArmedIds, RenewedOnly;
      ListedDisjoint(automations, triggers, a);
      ListedWith(automations, a);
      automations := automations[a.id := a];
      IndexTriggers(a, old(automations));
      ArmLocked(a, now, sides, Listed(old(automations)));
    }

    method ArmLocked(a: Automation, now: Instant, sides: int -> bool, ghost listed: set<Trigger>)
      requires ZoneOk(zone) && AutomationOk(a) && Agree(listed, series, edges, entries, popped)
               && EntriesSaved(entries, saved)
      requires forall u, i :: u in listed && 0 <= i < |a.triggers| ==> u.id != a.triggers[i].id
      modifies this`entries, this`edges, this`series, this`saved
      ensures Agree(listed + if Armed(a) then TriggersOf(a, |a.triggers|) else {}, series, edges, entries, popped)
              && EntriesSaved(entries, saved)
      ensures OnlyArmed(old(entries), entries, now)
      ensures ArmedFrom(zone, a, entries, now)
      ensures OnlyTheirs(ArmedIds(a), old(entries), entries, old(saved), saved)
      ensures RenewedOnly(ArmedIds(a), old(edges), edges, old(entries), entries)
    {
      hide Agree, EntriesSaved, IsNextDue, OnlyTheirs, RenewedOnly, ZoneOk;
      NothingOfTheirs(ArmedIds(a), entries, saved);
      NoneRenewed({}, edges, entries);
      if !IsArmed(a) {
        assert listed + {} == listed;
        return;
      }
      NoTriggerYet(a, listed);
      for i := 0 to |a.triggers|
        invariant Agree(listed + TriggersOf(a, i), series, edges, entries, popped) && EntriesSaved(entries, saved)
        invariant OnlyArmed(old(entries), entries, now)
        invariant forall j ::
                    0 <= j < i && !a.triggers[j].kind.OnReading? ==> TriggerArmed(zone, a.triggers[j], entries, now)
        invariant OnlyTheirs(ArmedIds(a), old(entries), entries, old(saved), saved)
        invariant RenewedOnly(IdsOf(a, i), old(edges), edges, old(entries), entries)
      {
        ghost var (edgesWas, entriesWas, savedWas) := (edges, entries, saved);
        NoHoldYet(listed + TriggersOf(a, i), series, edges, entries, popped, a.triggers[i]);
        ArmTrigger(a.triggers[i], now, sides, listed + TriggersOf(a, i));
        OneMoreTrigger(a, i, listed);
        OneArmed(a.triggers[i], edgesWas, edges, entriesWas, entries);
        RenewedMore(IdsOf(a, i), {a.triggers[i].id}, old(edges), edgesWas, edges, old(entries), entriesWas, entries);
        if !a.triggers[i].kind.OnReading? {
          OneOfTheirs(ArmedIds(a), old(entries), entriesWas, old(saved), savedWas, a.triggers[i].id,
                      entries[TriggerKey(a.triggers[i].id)]);
        }
      }
    }

    /** Drops what the automation was and puts what it is now. What was left in between is returned for the proof. */
    method ReplaceLocked(a: Automation, now: Instant, sides: int -> bool)
      returns (ghost dropped: map<DueKey, Instant>, ghost left: map<int, EdgeState>)
      requires Valid() && AutomationOk(a)
      requires forall i :: 0 <= i < |a.triggers| ==>
                 KindOk(timed, a.triggers[i]) && (a.triggers[i].id in triggers ==> triggers[a.triggers[i].id] == a.id)
      modifies this`automations, this`entries, this`triggers, this`edges, this`series, this`saved, this`lastDue
      ensures Valid() && automations == old(automations)[a.id := a] && lastDue == old(lastDue) - {a.id}
      ensures ArmedFrom(zone, a, entries, now)
      ensures NoneAdded(old(entries), dropped) && OnlyArmed(dropped, entries, now)
      ensures OnlyTheirs(ArmedIds(a), dropped, entries, old(saved), saved)
      ensures OthersKept(TriggerIds(old(automations), a.id) + ArmedIds(a), old(entries), entries, old(saved), saved)
      ensures RenewedOnly(TriggerIds(old(automations), a.id), old(edges), left, old(entries), dropped)
      ensures RenewedOnly(ArmedIds(a), left, edges, dropped, entries)
    {
      hide Agree, EntriesSaved, IsNextDue, IndexOk, AutomationOk, OnlyArmed, NoneAdded, KindsOk, Listed, ZoneOk,
           ArmedFrom, OnlyTheirs, ArmedIds, RenewedOnly, TriggerIds, OthersKept;
      ghost var (own, entriesWas, savedWas) := (TriggerIds(automations, a.id), entries, saved);
      FreedIds(automations, triggers, a);
      DropLocked(a.id);
      dropped, left := entries, edges;
      PutLocked(a, now, sides);
      TheirsAreKept(ArmedIds(a), dropped, entries, savedWas, saved);
      MoreKept(own, ArmedIds(a), entriesWas, dropped, entries, savedWas, savedWas, saved);
    }

    method Edit(a: Automation, now: Instant, sides: int -> bool)
      requires Valid() && AutomationOk(a) && now >= clock
      requires forall i :: 0 <= i < |a.triggers| ==>
                 KindOk(timed, a.triggers[i]) && (a.triggers[i].id in triggers ==> triggers[a.triggers[i].id] == a.id)
      modifies this
      ensures Valid() && zone == old(zone) && seen == old(seen)
      ensures automations == old(automations)[a.id := a] && ArmedFrom(zone, a, entries, now)
      ensures OthersKept(TriggerIds(old(automations), a.id) + IdsOf(a, |a.triggers|), old(entries), entries,
                         old(saved), saved)
      ensures Arms(old(Past()), Past(), [a.id])
      ensures KeepsPhase(old(automations), {a.id}, old(Plan()), Plan())
      ensures EdgesMove(Call(old(automations), {a.id}, Other), old(Present()), Present())
    {
      hide Agree, EntriesSaved, IndexOk, AutomationOk, Arms, OnlyArmed, NoneAdded, Edits, KindsOk, Listed, ZoneOk,
           ArmedFrom, OnlyTheirs, ArmedIds, KeepsPhase, HasInterval, RenewedOnly, EdgesMove, TriggerIds, OthersKept,
           IdsOf;
      EdgesAreListed(automations, series, edges, entries, popped);
      OthersIds(automations, triggers, a);
      ghost var (automationsWas, triggersWas, past, plan, present) :=
        (automations, triggers, Past(), Plan(), Present());
      ghost var dropped, left := ReplaceLocked(a, now, sides);
      clock := now;
      log := log + Edits([a.id]);
      ArmedAreKept(TriggerIds(automationsWas, a.id), a, plan.entries, entries, plan.saved, saved);
      EditArms(past, Past(), a.id, dropped);
      OthersKeepPhase(automationsWas, {a.id}, plan, dropped, Plan(), ArmedIds(a));
      EditMoves(automationsWas, triggersWas, a, present, left, dropped, Present());
    }

    /**
     What was saved as due before counts only if the automation was on already; otherwise its
     intervals count from now.
     */
    method Put(a: Automation, now: Instant, sides: int -> bool)
      requires Valid() && AutomationOk(a) && now >= clock
      requires forall i :: 0 <= i < |a.triggers| ==>
                 KindOk(timed, a.triggers[i]) && (a.triggers[i].id in triggers ==> triggers[a.triggers[i].id] == a.id)
      modifies this
      ensures Valid() && zone == old(zone) && seen == old(seen)
      ensures a.id in automations && automations == old(automations)[a.id := automations[a.id]]
      ensures if a.id in old(automations) && old(automations)[a.id].enabled then automations[a.id] == a
              else DueCleared(a, automations[a.id])
      ensures ArmedFrom(zone, automations[a.id], entries, now)
      ensures (a.id !in old(automations) || !old(automations)[a.id].enabled) && a.enabled && a.brokenReason == "" ==>
                forall i :: 0 <= i < |a.triggers| && a.triggers[i].kind.OnInterval? ==>
                  var key := TriggerKey(a.triggers[i].id);
                  key in entries && entries[key] == now + a.triggers[i].kind.interval
      ensures OthersKept(TriggerIds(old(automations), a.id) + IdsOf(a, |a.triggers|), old(entries), entries,
                         old(saved), saved)
      ensures Arms(old(Past()), Past(), [a.id])
      ensures KeepsPhase(old(automations), {a.id}, old(Plan()), Plan())
      ensures EdgesMove(Call(old(automations), {a.id}, Other), old(Present()), Present())
    {
      hide Agree, EntriesSaved, IndexOk, AutomationOk, Arms, DueCleared, KindsOk, Listed, ZoneOk, ArmedFrom,
           KeepsPhase, EdgesMove, TriggerIds, OthersKept, IdsOf;
      var kept := a;
      ghost var starts := a.id !in automations || !automations[a.id].enabled;
      if a.id !in automations || !automations[a.id].enabled {
        kept := ClearDue(a);
      }
      DueClearedOk(a, kept);
      SameId(a, kept);
      Edit(kept, now, sides);
      if starts && a.enabled && a.brokenReason == "" {
        CountsFromNow(zone, a, kept, entries, now);
      }
    }

    /** Only the reason changes, and with it whether the automation is armed. */
    method SetBroken(id: int, reason: string, now: Instant, sides: int -> bool)
      requires Valid() && now >= clock
      modifies this
      ensures Valid() && zone == old(zone) && seen == old(seen)
      ensures id !in old(automations) ==>
                Past() == old(Past()) && Present() == old(Present()) && automations == old(automations)
      ensures id in old(automations) ==>
                && automations == old(automations)[id := old(automations)[id].(brokenReason := reason)]
                && ArmedFrom(zone, automations[id], entries, now) && Arms(old(Past()), Past(), [id])
      ensures OthersKept(TriggerIds(old(automations), id), old(entries), entries, old(saved), saved)
      ensures KeepsPhase(old(automations), {id}, old(Plan()), Plan())
      ensures EdgesMove(Call(old(automations), {id}, Other), old(Present()), Present())
    {
      hide Agree, EntriesSaved, IndexOk, Arms, Listed, ZoneOk, ArmedFrom, KindOk, KeepsPhase, EdgesMove, OthersKept;
      OwnKinds(timed, automations, popped);
      if id !in automations {
        NothingNew(automations, {id}, Plan(), Plan());
        AllKept(TriggerIds(automations, id), entries, saved);
        EdgesWait(Call(automations, {id}, Other), Present(), Present());
        return;
      }
      OwnIds(automations, triggers, id);
      SameTriggers(automations, id, reason);
      Edit(automations[id].(brokenReason := reason), now, sides);
    }

    method Forget(id: int)
      requires Valid()
      modifies this
      ensures Valid() && zone == old(zone) && seen == old(seen)
      ensures automations == old(automations) - {id} && Arms(old(Past()), Past(), [id]) && saved == old(saved)
      ensures OthersKept(TriggerIds(old(automations), id), old(entries), entries, saved, saved)
      ensures KeepsPhase(old(automations), {id}, old(Plan()), Plan())
      ensures EdgesMove(Call(old(automations), {id}, Other), old(Present()), Present())
    {
      hide Agree, EntriesSaved, IndexOk, Arms, Edits, KindsOk, Listed, ZoneOk, NoneAdded, KeepsPhase,
           RenewedOnly, EdgesMove, TriggerIds, OthersKept;
      ghost var (automationsWas, past, plan, present) := (automations, Past(), Plan(), Present());
      DropLocked(id);
      log := log + Edits([id]);
      NoneArmedAfter(entries, clock);
      EditArms(past, Past(), id, entries);
      NoneAddedKeepsPhase(automationsWas, {id}, plan, Plan());
      DropMovesEdges(automationsWas, id, present, Present());
    }

    /** Forgets the automations that use the sensor, and no others. */
    method ForgetUsing(sensor: int) returns (forgotten: seq<int>)
      requires Valid()
      modifies this
      ensures Valid() && zone == old(zone) && seen == old(seen)
      ensures forall id :: id in forgotten <==> id in old(automations) && Uses(old(automations)[id], sensor)
      ensures automations == NotUsing(old(automations), {}, sensor)
      ensures Arms(old(Past()), Past(), forgotten) && saved == old(saved)
      ensures UnownedKept(old(automations), EditedIds(forgotten), old(entries), entries)
      ensures KeepsPhase(old(automations), {}, old(Plan()), Plan())
      ensures EdgesMove(Call(old(automations), EditedIds(forgotten), Other), old(Present()), Present())
    {
      hide RenewedOnly, EdgesMove, TriggerIds, KeepsPhase, Owned, OthersKept, UnownedKept;
      hide Agree, EntriesSaved, IndexOk, IdsOf, KindsOk, Uses, NotUsing, NoneAdded, EditedIds, Edits, ZoneOk,
           Arms, Listed;
      forgotten := [];
      var left := automations.Keys;
      ghost var (ids, automationsWas, past, plan, present) := ({}, automations, Past(), Plan(), Present());
      NoneForgotten(automations, entries, lastDue, sensor);
      NoneRenewed(ids, edges, entries);
      AllKept(ids, entries, saved);
      while left != {}
        modifies this`automations, this`entries, this`triggers, this`edges, this`series, this`lastDue
        invariant Valid() && left <= automations.Keys
        invariant forall id ::
                    id in forgotten <==> id in old(automations) && id !in left && Uses(old(automations)[id], sensor)
        invariant automations == NotUsing(old(automations), left, sensor)
        invariant NoneAdded(old(entries), entries)
        invariant lastDue == old(lastDue) - EditedIds(forgotten)
        invariant OthersKept(ids, old(entries), entries, saved, saved)
        invariant RenewedOnly(ids, old(edges), edges, old(entries), entries)
                  && AllOwned(automationsWas, EditedIds(forgotten), ids)
      {
        EmptyOrHasMember(left);
        var id :| id in left;
        NotUsingStep(old(automations), left, id, sensor);
        left := left - {id};
        var uses := UsesSensor(automations[id], sensor);
        if uses {
          ghost var (entriesWas, edgesWas, more) := (entries, edges, TriggerIds(automations, id));
          MoreOwned(automationsWas, automations, forgotten, id, ids);
          DropLocked(id);
          NoneAddedStill(old(entries), entriesWas, entries);
          RenewedMore(ids, more, old(edges), edgesWas, edges, old(entries), entriesWas, entries);
          MoreKept(ids, more, old(entries), entriesWas, entries, saved, saved, saved);
          OneMoreForgotten(old(lastDue), forgotten, id);
          forgotten, ids := forgotten + [id], ids + more;
        }
      }
      log := log + Edits(forgotten);
      ForgetArms(past, Past(), forgotten);
      NoneAddedKeepsPhase(automationsWas, {}, plan, Plan());
      OwnedAreKept(automationsWas, EditedIds(forgotten), ids, present.entries, entries, saved);
      AllOwnedMove(automationsWas, EditedIds(forgotten), ids, present, Present());
    }

    /** Schedules are recomputed on the new zone's clock; intervals do not depend on it. */
    method SetZone(to: Zone, now: Instant, sides: int -> bool)
      requires Valid() && ZoneOk(to) && now >= clock
      modifies this
      ensures Valid() && zone == to && automations == old(automations) && seen == old(seen)
      ensures to != old(zone) ==>
                forall t :: t in Listed(automations) && t.kind.OnSchedule? ==> ScheduleArmed(to, t, entries, now)
      ensures OnlyRescheduled(Listed(automations), to, old(entries), entries, now)
      ensures Arms(old(Past()), Past(), [])
      ensures KeepsPhase(automations, {}, old(Plan()), Plan())
      ensures EdgesMove(Call(automations, {}, Other), old(Present()), Present())
    {
      hide Agree, EntriesSaved, IndexOk, KindsOk, Listed, OnlyRescheduled, ScheduleArmed, SchedulesArmed,
           Arms, UniqueIds, OnlyTheirs,
           KeepsPhase, HasInterval, ScheduledIds, EdgesMove;
      NothingOfTheirs(ScheduledIds(Listed(automations)), entries, saved);
      ghost var listed := Listed(automations);
      NothingRescheduled(listed, to, entries, now);
      OneListedPerId(automations, triggers);
      clock := now;
      if to != zone {
        zone := to;
        var left := automations.Keys;
        while left != {}
          modifies this`entries, this`saved
          invariant left <= automations.Keys
          invariant Agree(listed, series, edges, entries, popped) && EntriesSaved(entries, saved)
          invariant OnlyRescheduled(listed, to, old(entries), entries, now)
          invariant OnlyTheirs(ScheduledIds(listed), old(entries), entries, old(saved), saved)
          invariant forall id ::
                      id in automations && id !in left && Armed(automations[id]) ==>
                        SchedulesArmed(to, automations[id], entries, now)
        {
          EmptyOrHasMember(left);
          var id :| id in left;
          left := left - {id};
          ghost var was := entries;
          if IsArmed(automations[id]) {
            RearmSchedules(id, now, sides, old(entries), old(saved));
            forall other | other in automations && other !in left && other != id && Armed(automations[other])
              ensures SchedulesArmed(to, automations[other], entries, now)
            {
              SchedulesStillArmed(automations, to, was, entries, other, now);
            }
          }
        }
      }
      if to != old(zone) {
        AllSchedulesArmed(automations, to, entries, now);
      }
      RescheduledArms(old(Past()), Past(), listed, to);
      SchedulesAreNoIntervals(automations, triggers);
      NoneAddedAtAll(old(entries));
      OthersKeepPhase(automations, {}, old(Plan()), old(entries), Plan(), ScheduledIds(listed));
      RearmedWait(automations, ScheduledIds(listed), old(saved), saved, old(Present()), Present());
    }

    method RearmSchedules(id: int, now: Instant, sides: int -> bool, ghost before: map<DueKey, Instant>,
                          ghost savedBefore: map<int, Instant>)
      requires Valid() && id in automations && Armed(automations[id])
      requires OnlyRescheduled(Listed(automations), zone, before, entries, now)
      requires OnlyTheirs(ScheduledIds(Listed(automations)), before, entries, savedBefore, saved)
      modifies this`entries, this`saved
      ensures Valid() && SchedulesArmed(zone, automations[id], entries, now)
      ensures OnlyRescheduled(Listed(automations), zone, before, entries, now)
      ensures OnlyRescheduled(Listed(automations), zone, old(entries), entries, now)
      ensures OnlyTheirs(ScheduledIds(Listed(automations)), before, entries, savedBefore, saved)
    {
      hide Agree, EntriesSaved, IndexOk, KindsOk, Listed, OnlyRescheduled, IsNextDue, OnlyTheirs;
      ghost var listed := Listed(automations);
      OneListedPerId(automations, triggers);
      NothingRescheduled(listed, zone, entries, now);
      OwnIds(automations, triggers, id);
      var a := automations[id];
      for i := 0 to |a.triggers|
        invariant Agree(listed, series, edges, entries, popped) && EntriesSaved(entries, saved)
        invariant forall j ::
                    0 <= j < i && a.triggers[j].kind.OnSchedule? ==> ScheduleArmed(zone, a.triggers[j], entries, now)
        invariant OnlyRescheduled(listed, zone, before, entries, now)
                  && OnlyRescheduled(listed, zone, old(entries), entries, now)
        invariant OnlyTheirs(ScheduledIds(listed), before, entries, savedBefore, saved)
      {
        var t := a.triggers[i];
        if t.kind.OnSchedule? {
          ListedHas(automations, id, i);
          ghost var (was, savedWas) := (entries, saved);
          var due := ArmTriggerLocked(t, now, now, sides);
          OneOfTheirs(ScheduledIds(listed), before, was, savedBefore, savedWas, t.id, due);
          Rescheduled(listed, zone, before, was, t, due, now);
          Rescheduled(listed, zone, old(entries), was, t, due, now);
          AgreeMoves(listed, series, edges, was, popped, t, due);
          SavedMoves(was, savedWas, t.id, due);
        }
      }
    }

    /** The scheduler takes out what is due. The entries given are those its heap pops. */
    method PopDue(due: seq<Popped>, now: Instant)
      requires Valid() && popped == [] && now >= clock
      requires PopsAllDue(entries, due, now)
      modifies this`entries, this`popped, this`clock, this`horizon
      ensures Valid() && popped == due && Pops(old(Past()), Past())
      ensures KeepsPhase(automations, {}, old(Plan()), Plan())
      ensures EdgesMove(Call(automations, {}, Other), old(Present()), Present())
    {
      hide KeepsPhase, EdgesMove, Pops, Agree, EntriesSaved, IndexOk, Listed, KindsOk, ZoneOk, LaterThan, PopsAllDue;
      PopKeepsPhase(automations, Plan(), due, now);
      DuePopped(timed, automations, triggers, series, edges, entries, saved, due, now);
      ghost var (past, present) := (Past(), Present());
      entries := LaterThan(entries, now);
      popped := due;
      clock, horizon := now, now;
      PopsNow(past, due, now);
      EdgesPop(automations, present, Present());
    }

    method TriggerOf(a: Automation, id: int) returns (trigger: Trigger)
      requires HasTrigger(a, id)
      ensures trigger in a.triggers && trigger.id == id
    {
      for i := 0 to |a.triggers|
        invariant forall j :: 0 <= j < i ==> a.triggers[j].id != id
      {
        if a.triggers[i].id == id {
          return a.triggers[i];
        }
      }
    }

    /**
     A due trigger is armed again for after now and asks for a run, unless one
     was started for the same due time. A trigger disarmed since it was popped does nothing.
     */
    method FireTrigger(now: Instant, sides: int -> bool) returns (start: Option<Start>)
      requires Valid() && now >= clock && popped != [] && popped[0].key.kind.DueTrigger?
      modifies this`entries, this`popped, this`clock, this`saved, this`lastDue, this`log
      ensures Valid()
      ensures var id := old(popped)[0].key.id;
              if id in triggers && triggers[id] in automations && Armed(automations[triggers[id]]) then
                && TriggerFires(old(Past()), Past(), zone, automations[triggers[id]], start)
                && (start.Some? ==> start.value.automation.enabled && start.value.automation.brokenReason == "")
              else Passes(old(Past()), Past()) && start == None
      ensures KeepsPhase(automations, {}, old(Plan()), Plan())
      ensures EdgesMove(Call(automations, {}, Other), old(Present()), Present())
    {
      hide KeepsPhase, EdgesMove;
      hide IsNextDue, Agree, EntriesSaved, IndexOk, Listed, KindsOk, ZoneOk, Fires, Passes, TriggerFires,
           TimeIds, ReadingIds, HasTrigger;
      IndexFacts(automations, triggers, popped[0].key.id);
      KindsTaken(timed, automations, popped);
      var Popped(key, due) := popped[0];
      var owner := if key.id in triggers then triggers[key.id] else 0;
      TriggerTaken(automations, triggers, timed, series, edges, entries, popped);
      if owner !in automations || !IsArmed(automations[owner]) {
        TakePopped(now);
        return None;
      }
      var trigger := TriggerOf(automations[owner], key.id);
      start := FireArmed(automations[owner], trigger, now, sides);
    }

    method FireArmed(a: Automation, trigger: Trigger, now: Instant, sides: int -> bool) returns (start: Option<Start>)
      requires Valid() && now >= clock && popped != [] && popped[0].key == TriggerKey(trigger.id)
      requires a.id in automations && trigger in a.triggers && trigger in Listed(automations)
               && TimeTrigger(trigger.kind)
      modifies this`entries, this`popped, this`clock, this`saved, this`lastDue, this`log
      ensures Valid() && TriggerFires(old(Past()), Past(), zone, a, start)
      ensures start.Some? ==> start.value.automation == a
      ensures KeepsPhase(automations, {}, old(Plan()), Plan())
      ensures EdgesMove(Call(automations, {}, Other), old(Present()), Present())
    {
      hide KeepsPhase, EdgesMove, Later, TimeTrigger;
      hide IsNextDue, Agree, EntriesSaved, IndexOk, Listed, KindsOk, ZoneOk, Fires, TriggerFires;
      ghost var past := Past();
      var due := popped[0].due;
      var next := RearmFired(trigger, now, sides);
      FiresNow(past, now, zone, a, trigger, next);
      var duplicate := a.id in lastDue && lastDue[a.id] == due;
      lastDue := lastDue[a.id := due];
      log := log + [Fired(a.id, trigger.id, due, !duplicate)];
      start := if duplicate then None else Some(Start(a, trigger, due, None));
    }

    /** The first popped trigger is armed again for after now. */
    method RearmFired(trigger: Trigger, now: Instant, sides: int -> bool) returns (next: Instant)
      requires Valid() && now >= clock && popped != [] && popped[0].key == TriggerKey(trigger.id)
      requires trigger in Listed(automations) && TimeTrigger(trigger.kind)
      modifies this`entries, this`popped, this`clock, this`saved
      ensures Valid() && popped == old(popped)[1..] && clock == now
      ensures entries == old(entries)[TriggerKey(trigger.id) := next]
      ensures var due := old(popped)[0].due;
              next > Later(due, now) && IsNextDue(zone, trigger.kind, due, Later(due, now), next)
      ensures KeepsPhase(automations, {}, old(Plan()), Plan())
      ensures EdgesMove(Call(automations, {}, Other), old(Present()), Present())
    {
      hide KeepsPhase, EdgesMove, HasInterval, Later, IsNextDue, Agree, EntriesSaved, IndexOk, Listed,
           KindsOk, ZoneOk, TimeIds, ReadingIds;
      ghost var (entriesWas, savedWas, plan, present) := (entries, saved, Plan(), Present());
      var due := popped[0].due;
      next := ArmTriggerLocked(trigger, due, Later(due, now), sides);
      FiredKeeps(timed, automations, series, edges, entriesWas, savedWas, popped, trigger, next);
      FiredKeepsPhase(automations, triggers, zone, plan, trigger, Later(due, now), next);
      popped := popped[1..];
      clock := now;
      FiredWaits(automations, trigger.id, next, present, Present());
    }

    /** The first popped entry is dealt with, and no due time changes. */
    method TakePopped(now: Instant)
      requires now >= clock && popped != []
      modifies this`popped, this`clock
      ensures popped == old(popped)[1..] && clock == now && Passes(old(Past()), Past())
      ensures KeepsPhase(automations, {}, old(Plan()), Plan())
      ensures !old(popped)[0].key.kind.DueHold? ==> EdgesMove(Call(automations, {}, Other), old(Present()), Present())
    {
      hide KeepsPhase, EdgesMove;
      PassKeepsPhase(automations, Plan());
      ghost var present := Present();
      popped := popped[1..];
      clock := now;
      if !present.popped[0].key.kind.DueHold? {
        EdgesWait(Call(automations, {}, Other), present, Present());
      }
    }

    /** A due hold that still stands fires; one since released, or begun again, does nothing. */
    method FireHold(now: Instant) returns (start: Option<Start>)
      requires Valid() && now >= clock && popped != [] && popped[0].key.kind.DueHold?
      modifies this`edges, this`popped, this`clock
      ensures Valid() && Passes(old(Past()), Past())
      ensures KeepsPhase(automations, {}, old(Plan()), Plan())
      ensures var (id, due) := (old(popped)[0].key.id, old(popped)[0].due);
              if id in old(edges) && Elapsed(old(edges)[id], due).1 then
                && edges == old(edges)[id := Elapsed(old(edges)[id], due).0]
                && HoldStarts(automations, id, due, old(edges)[id].holdCause, start)
              else edges == old(edges) && start == None
      ensures EdgesMove(Call(automations, {}, HandsOver(old(popped)[0].key.id, old(popped)[0].due)), old(Present()),
                        Present())
    {
      hide EdgesMove;
      hide SeriesOk, EntriesOk, EntriesSaved, IndexOk, Listed, KindsOk, ZoneOk, ReadingIds, KeepsPhase, Passes;
      KindsTaken(timed, automations, popped);
      var Popped(key, due) := popped[0];
      ghost var (was, present) := (edges, Present());
      if key.id in edges && Elapsed(edges[key.id], due).1 {
        EdgeIsOwned(automations, triggers, key.id);
        var a := automations[triggers[key.id]];
        var cause := edges[key.id].holdCause;
        edges := edges[key.id := Elapsed(edges[key.id], due).0];
        var trigger := TriggerOf(a, key.id);
        start := Some(Start(a, trigger, due, cause));
      } else {
        start := None;
      }
      HoldTaken(Listed(automations), series, was, edges, entries, popped);
      TakePopped(now);
      HoldHandedOver(automations, present, Present(), key.id, due);
    }

    /** What one trigger makes of a reading. */
    method ObserveTrigger(trigger: Trigger, reading: Reading, cause: Option<int>, now: Instant)
      returns (action: EdgeAction)
      requires Indexed() && trigger in Listed(automations) && trigger.kind.OnReading? && trigger.id in edges
      modifies this`edges, this`entries
      ensures Indexed() && trigger.id in old(edges)
      ensures SeenBy(trigger, reading, cause, now, old(edges), edges, old(entries), entries)
      ensures action == Observed(old(edges)[trigger.id], trigger.kind.condition, reading, now).1
    {
      hide SeriesOk, EntriesOk, HoldsOk, EntriesSaved, IndexOk, Listed, KindsOk, ZoneOk, Observed;
      SeenKeeps(Listed(automations), series, edges, entries, popped, trigger, reading, cause, now);
      SeenSaved(entries, saved, edges, trigger, reading, cause, now);
      var (state, act) := Observed(edges[trigger.id], trigger.kind.condition, reading, now);
      action := act;
      edges := edges[trigger.id := if action.Hold? then state.(holdCause := cause) else state];
      match action
      case Hold => entries := entries[HoldKey(trigger.id) := state.holdUntil];
      case Release => entries := entries - {HoldKey(trigger.id)};
      case _ =>
    }

    /**
     Every trigger armed on the series sees the reading, and no other edge or
     entry changes. Each automation with a trigger that fires is started once.
     */
    method Observe(s: Series, reading: Reading, cause: Option<int>, now: Instant) returns (fired: seq<Start>)
      requires Valid() && now >= seen
      modifies this`edges, this`entries, this`clock, this`seen
      ensures Valid() && Arms(old(Past()), Past(), []) && seen == now
      ensures clock == if now > old(clock) then now else old(clock)
      ensures KeepsPhase(automations, {}, old(Plan()), Plan())
      ensures EdgesMove(Call(automations, {}, Reads(SeriesTriggers(series, s), reading, cause, now)), old(Present()),
                        Present())
      ensures AllSeen(SeriesTriggers(series, s), reading, cause, now, old(edges), edges, old(entries), entries)
      ensures StartsFor(automations, triggers, SeriesTriggers(series, s), reading, cause, now, old(edges), fired)
    {
      hide Agree, EntriesSaved, IndexOk, Listed, KindsOk, ZoneOk, Observed, AllSeen, SeenBy, StartsFor, Arms,
           KeepsPhase, EdgesMove;
      ghost var (past, plan, present) := (Past(), Plan(), Present());
      var list := SeriesTriggers(series, s);
      SeriesIsListed(automations, triggers, series, edges, entries, popped, s);
      fired := ObserveAll(list, reading, cause, now);
      clock, seen := Later(clock, now), now;
      SeenArms(past, Past(), list, reading, cause, now, present.edges, edges);
      SeenKeepsPhase(automations, plan, Plan(), list, reading, cause, now, present.edges, edges);
      EdgesRead(automations, list, reading, cause, now, present, Present());
    }

    /** The triggers of the series in turn. */
    method ObserveAll(list: seq<Trigger>, reading: Reading, cause: Option<int>, now: Instant)
      returns (fired: seq<Start>)
      requires Indexed() && Distinct(list)
      requires forall i :: 0 <= i < |list| ==>
                 && list[i] in Listed(automations) && list[i].kind.OnReading? && list[i].id in edges
                 && list[i].id in triggers && triggers[list[i].id] in automations
                 && automations[triggers[list[i].id]].id == triggers[list[i].id]
                 && Armed(automations[triggers[list[i].id]])
      modifies this`edges, this`entries
      ensures Indexed()
      ensures AllSeen(list, reading, cause, now, old(edges), edges, old(entries), entries)
      ensures StartsFor(automations, triggers, list, reading, cause, now, old(edges), fired)
    {
      hide Agree, EntriesSaved, IndexOk, Listed, KindsOk, ZoneOk, Observed, AllSeen, SeenBy, StartsFor,
           Distinct, StartedIds;
      ghost var (edgesAtFirst, entriesAtFirst) := (edges, entries);
      fired := [];
      var started := {};
      NoneSeen(automations, triggers, reading, cause, now, edges, entries);
      NoneStarted();
      assert list[..0] == [];
      for i := 0 to |list|
        modifies this`edges, this`entries
        invariant Indexed() && edges.Keys == edgesAtFirst.Keys
        invariant AllSeen(list[..i], reading, cause, now, edgesAtFirst, edges, entriesAtFirst, entries)
        invariant StartsFor(automations, triggers, list[..i], reading, cause, now, edgesAtFirst, fired)
        invariant started == StartedIds(fired)
      {
        var trigger := list[i];
        ghost var (edgesWas, entriesWas) := (edges, entries);
        EdgeUntouched(list, i, reading, cause, now, edgesAtFirst, edges, entriesAtFirst, entries);
        var action := ObserveTrigger(trigger, reading, cause, now);
        SeenMore(list, i, reading, cause, now, edgesAtFirst, edgesWas, edges, entriesAtFirst, entriesWas, entries);
        StartsMore(automations, triggers, list[..i], trigger, reading, cause, now, edgesAtFirst, fired);
        assert list[..i + 1] == list[..i] + [trigger];
        if action.Fire? {
          var automation := automations[triggers[trigger.id]];
          if automation.id !in started {
            started := started + {automation.id};
            StartedMore(fired, Start(automation, trigger, now, cause));
            fired := fired + [Start(automation, trigger, now, cause)];
          }
        }
      }
      assert list[..|list|] == list;
    }

    /** A due resume is passed on to the run it names, whose status decides what comes of it. */
    method PassResume(now: Instant) returns (run: int)
      requires Valid() && now >= clock && popped != [] && popped[0].key.kind.DueResume?
      modifies this`popped, this`clock
      ensures Valid() && run == old(popped)[0].key.id && Passes(old(Past()), Past())
      ensures KeepsPhase(automations, {}, old(Plan()), Plan())
      ensures EdgesMove(Call(automations, {}, Other), old(Present()), Present())
    {
      hide KeepsPhase, EdgesMove, Passes, Agree, EntriesSaved, IndexOk, Listed, KindsOk, ZoneOk;
      KindsTaken(timed, automations, popped);
      AgreeTaken(Listed(automations), series, edges, entries, popped);
      run := popped[0].key.id;
      TakePopped(now);
    }

    /** The earliest of the automation's due times. */
    method NextFireAt(id: int) returns (next: Option<Instant>)
      requires Valid()
      ensures id !in automations || !Armed(automations[id]) ==> next == None
      ensures id in automations && Armed(automations[id]) ==>
                && (next == None <==> forall t :: t in automations[id].triggers ==> TriggerKey(t.id) !in entries)
                && (next.Some? ==>
                      && (exists t ::
                            t in automations[id].triggers && TriggerKey(t.id) in entries
                            && entries[TriggerKey(t.id)] == next.value)
                      && (forall t ::
                            t in automations[id].triggers && TriggerKey(t.id) in entries ==>
                              next.value <= entries[TriggerKey(t.id)]))
    {
      hide Agree, EntriesSaved, IndexOk, Listed, KindsOk, ZoneOk;
      next := None;
      if id in automations && IsArmed(automations[id]) {
        var list := automations[id].triggers;
        for i := 0 to |list|
          invariant next == None <==> forall j :: 0 <= j < i ==> TriggerKey(list[j].id) !in entries
          invariant next.Some? ==>
                      && (exists j ::
                            0 <= j < i && TriggerKey(list[j].id) in entries
                            && entries[TriggerKey(list[j].id)] == next.value)
                      && (forall j ::
                            0 <= j < i && TriggerKey(list[j].id) in entries ==>
                              next.value <= entries[TriggerKey(list[j].id)])
        {
          var key := TriggerKey(list[i].id);
          if key in entries && (next.None? || entries[key] < next.value) {
            next := Some(entries[key]);
          }
        }
      }
    }

    /**
     At startup: what each automation missed while the hub was down, what it
     catches up with, and its triggers armed for after now.
     */
    method Load(list: seq<Automation>, now: Instant, grace: nat, sides: int -> bool)
      returns (missed: seq<Overdue>, catchUp: seq<Overdue>, ghost found: seq<(seq<Overdue>, Option<Overdue>)>)
      requires Valid() && Past() == Timeline(now, now, map[], [], map[], []) && automations == map[]
      requires forall i :: 0 <= i < |list| ==> LoadOk(timed, list, i, saved)
      modifies this
      ensures Valid() && FiringOrder.Init(Past()) && zone == old(zone) && clock == horizon == now && seen == old(seen)
      ensures AllIn(list, automations) && forall i :: 0 <= i < |list| ==> ArmedFrom(zone, list[i], entries, now)
      ensures KeepsPhase(automations, {}, old(Plan()), Plan())
      ensures EdgesMove(Call(map[], {}, Other), old(Present()), Present())
      ensures |found| == |list| && missed == AllMissedOf(found) && catchUp == AllCaughtUp(found)
      ensures forall i :: 0 <= i < |list| ==>
                AllMissed(zone, list[i], list[i].triggers, now, grace, found[i].0)
                && FirstInGrace(zone, list[i], list[i].triggers, now, grace, found[i].1)
      ensures log == CaughtUpEvents(catchUp)
    {
      hide AllMissed, FirstInGrace, IndexOk, KindsOk, Agree, EntriesSaved, Listed, ZoneOk, LaterOnly,
           StartupOk, AllIn, CaughtUpEvents,
           AllMissedOf, AllCaughtUp, OnlyArmed, AutomationOk, ArmedFrom, KindOk, Apart, HasTrigger,
           OnlyTheirs, AllArmed, KeepsPhase, NextDueSaved,
           RenewedOnly, EdgesMove;
      ghost var (ids, present) := ({}, Present());
      NoEdgesYet(series, edges, entries, popped);
      NoneRenewed({}, edges, entries);
      missed, catchUp, found := [], [], [];
      NothingLoaded(automations, lastDue, log, now);
      NoneArmed(zone, entries, saved, now);
      for i := 0 to |list|
        modifies this`automations, this`entries, this`triggers, this`edges, this`series, this`saved,
                 this`lastDue, this`log
        invariant Indexed()
        invariant AllIn(list[..i], automations)
        invariant AllArmed(zone, list[..i], entries, old(saved), saved, now)
        invariant LaterOnly(entries, now) && StartupOk(automations, lastDue, log, now)
        invariant RenewedOnly(ids, map[], edges, map[], entries)
        invariant |found| == i && missed == AllMissedOf(found) && catchUp == AllCaughtUp(found)
                  && log == CaughtUpEvents(catchUp)
        invariant forall j :: 0 <= j < i ==>
                    AllMissed(zone, list[j], list[j].triggers, now, grace, found[j].0)
                    && FirstInGrace(zone, list[j], list[j].triggers, now, grace, found[j].1)
      {
        assert LoadOk(timed, list, i, old(saved));
        NewIds(list, i, automations, triggers);
        ghost var (lastDueWas, logWas, automationsWas, catchUpWas) := (lastDue, log, automations, catchUp);
        var late, caughtUp := OverdueTriggers(zone, list[i], now, grace, sides);
        missed := missed + late;
        if caughtUp.Some? {
          lastDue := lastDue[list[i].id := caughtUp.value.due];
          catchUp := catchUp + [caughtUp.value];
          log := log + [Fired(list[i].id, caughtUp.value.trigger.id, caughtUp.value.due, true)];
        }
        FoundMore(found, (late, caughtUp));
        StartupMore(automationsWas, lastDueWas, logWas, zone, list[i], now, grace, caughtUp);
        EventsMore(catchUpWas, zone, list[i], now, grace, caughtUp);
        found := found + [(late, caughtUp)];
        ghost var (was, savedWas, edgesWas) := (entries, saved, edges);
        PutLocked(list[i], now, sides);
        RenewedMore(ids, ArmedIds(list[i]), map[], edgesWas, edges, map[], was, entries);
        ids := ids + ArmedIds(list[i]);
        PutMore(list, i, automationsWas);
        ArmedMore(zone, list, i, was, entries, old(saved), savedWas, saved, now);
        LaterMore(was, entries, now);
      }
      assert list[..|list|] == list;
      StartupInit(Past(), automations);
      AllArmedFrom(zone, list, entries, old(saved), saved, now);
      forall i | 0 <= i < |list| ensures NextDueSaved(list[i], old(saved)) {
        assert LoadOk(timed, list, i, old(saved));
      }
      EdgesRenewed(Call(map[], {}, Other), ids, present, Present());
      LoadKeepsPhase(zone, list, automations, triggers, series, edges, entries, old(saved), saved, now);
    }
  }

  /** The hub dies, and starts again with what the store kept. */
  method Restart(engine: Engine, zone: Zone, list: seq<Automation>, now: Instant, grace: nat, sides: int -> bool)
    returns (next: Engine, missed: seq<Overdue>, catchUp: seq<Overdue>)
    requires ZoneOk(zone) && forall i :: 0 <= i < |list| ==> LoadOk(engine.timed, list, i, engine.saved)
    ensures fresh(next) && next.Valid() && AllIn(list, next.automations) && next.timed == engine.timed
    ensures KeepsPhase(next.automations, {}, engine.Plan(), next.Plan())
  {
    hide KeepsPhase, AllIn, LoadOk;
    next := new Engine(zone, now, engine.saved, engine.timed);
    ghost var found;
    missed, catchUp, found := next.Load(list, now, grace, sides);
    DyingThenKeeps(next.automations, engine.Plan(), next.Plan());
  }
}
