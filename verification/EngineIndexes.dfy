/**
 The engine's maps from series, triggers and edges to automations, and what
 they must agree with.
 */
module EngineIndexes {
  import opened Wrappers
  import opened Edges
  import opened Automations
  import opened DueQueue
  import opened TimeZones
  import opened DueTimes

  function TriggerKey(id: int): DueKey { DueKey(DueTrigger, id) }
  function HoldKey(id: int): DueKey { DueKey(DueHold, id) }

  ghost function TriggersOf(a: Automation, n: nat): set<Trigger>
    requires n <= |a.triggers|
  {
    set i | 0 <= i < n :: a.triggers[i]
  }

  ghost predicate HasTrigger(a: Automation, id: int) {
    exists i :: 0 <= i < |a.triggers| && a.triggers[i].id == id
  }

  /** The triggers of all armed automations. */
  ghost function Listed(automations: map<int, Automation>): set<Trigger> {
    set id, i | id in automations && Armed(automations[id])
      && 0 <= i < |automations[id].triggers| :: automations[id].triggers[i]
  }

  ghost function ReadingIds(listed: set<Trigger>): set<int> {
    set t | t in listed && t.kind.OnReading? :: t.id
  }

  ghost function TimeIds(listed: set<Trigger>): set<int> {
    set t | t in listed && !t.kind.OnReading? :: t.id
  }

  /** Every trigger, armed or not, is mapped to the one automation that has it, and nothing else is mapped. */
  ghost predicate IndexOk(automations: map<int, Automation>, triggers: map<int, int>) {
    && (forall id :: id in automations ==> automations[id].id == id && AutomationOk(automations[id]))
    && (forall t :: t in triggers ==> triggers[t] in automations && HasTrigger(automations[triggers[t]], t))
    && (forall t, a :: a in automations && HasTrigger(automations[a], t) ==> t in triggers && triggers[t] == a)
  }

  ghost predicate SeriesOk(listed: set<Trigger>, series: map<Series, seq<Trigger>>) {
    && (forall s :: s in series ==> series[s] != [])
    && (forall s, i :: s in series && 0 <= i < |series[s]| ==>
          var t := series[s][i]; t in listed && t.kind.OnReading? && t.kind.series == s)
    && (forall s, i, j :: s in series && 0 <= i < j < |series[s]| ==> series[s][i] != series[s][j])
    && (forall t :: t in listed && t.kind.OnReading? ==> t.kind.series in series && t in series[t.kind.series])
  }

  predicate IsPopped(popped: seq<Popped>, key: DueKey) {
    exists i :: 0 <= i < |popped| && popped[i].key == key
  }

  /**
   Armed time triggers wait in the scheduler, or have been popped to fire; only those do, and only
   reading triggers hold.
   */
  ghost predicate EntriesOk(listed: set<Trigger>, entries: map<DueKey, Instant>, popped: seq<Popped>) {
    && (forall id {:trigger TriggerKey(id)} :: TriggerKey(id) in entries ==> id in TimeIds(listed))
    && (forall id {:trigger TriggerKey(id)} ::
          id in TimeIds(listed) ==> TriggerKey(id) in entries || IsPopped(popped, TriggerKey(id)))
    && (forall id {:trigger HoldKey(id)} :: HoldKey(id) in entries ==> id in ReadingIds(listed))
  }

  ghost predicate HoldsOk(edges: map<int, EdgeState>, entries: map<DueKey, Instant>, popped: seq<Popped>) {
    forall id {:trigger edges[id]} :: id in edges && edges[id].holding ==>
      || (HoldKey(id) in entries && entries[HoldKey(id)] == edges[id].holdUntil)
      || Popped(HoldKey(id), edges[id].holdUntil) in popped
  }

  /** Series, edges and entries are what the triggers of the armed automations make them. */
  ghost predicate Agree(listed: set<Trigger>, series: map<Series, seq<Trigger>>, edges: map<int, EdgeState>,
                        entries: map<DueKey, Instant>, popped: seq<Popped>) {
    && SeriesOk(listed, series)
    && edges.Keys == ReadingIds(listed)
    && EntriesOk(listed, entries, popped)
    && HoldsOk(edges, entries, popped)
  }

  /** timed holds the IDs of time triggers: an ID never comes to name another trigger. */
  ghost predicate KindOk(timed: iset<int>, t: Trigger) {
    t.kind.OnReading? <==> t.id !in timed
  }

  ghost predicate KindsOk(timed: iset<int>, automations: map<int, Automation>, popped: seq<Popped>) {
    && (forall id, i ::
          id in automations && 0 <= i < |automations[id].triggers| ==> KindOk(timed, automations[id].triggers[i]))
    && (forall i :: 0 <= i < |popped| && popped[i].key.kind.DueTrigger? ==> popped[i].key.id in timed)
  }

  // ---------- One trigger more or less ----------

  /** The list without the trigger of the ID given. */
  function Without(list: seq<Trigger>, id: int): (rest: seq<Trigger>)
    ensures forall t :: t in rest <==> t in list && t.id != id
    ensures (forall i, j :: 0 <= i < j < |list| ==> list[i] != list[j]) ==>
              forall i, j :: 0 <= i < j < |rest| ==> rest[i] != rest[j]
  {
    if list == [] then []
    else if list[0].id == id then Without(list[1..], id)
    else [list[0]] + Without(list[1..], id)
  }

  function AddToSeries(series: map<Series, seq<Trigger>>, s: Series, t: Trigger): map<Series, seq<Trigger>> {
    series[s := (if s in series then series[s] else []) + [t]]
  }

  function RemoveFromSeries(series: map<Series, seq<Trigger>>, s: Series, id: int): map<Series, seq<Trigger>> {
    if s !in series then series
    else if Without(series[s], id) == [] then series - {s}
    else series[s := Without(series[s], id)]
  }

  lemma SeriesGains(listed: set<Trigger>, series: map<Series, seq<Trigger>>, t: Trigger)
    requires SeriesOk(listed, series) && t.kind.OnReading? && t !in listed
    ensures SeriesOk(listed + {t}, AddToSeries(series, t.kind.series, t))
  {
    var s := t.kind.series;
    var series' := AddToSeries(series, s, t);
    assert series'[s][|series'[s]| - 1] == t;
    forall u | u in listed && u.kind.OnReading? ensures u in series'[u.kind.series] {
      assert u in series[u.kind.series];
    }
  }

  lemma SeriesLoses(listed: set<Trigger>, series: map<Series, seq<Trigger>>, t: Trigger)
    requires SeriesOk(listed, series) && t.kind.OnReading?
    requires forall u :: u in listed && u.id == t.id ==> u == t
    ensures SeriesOk(listed - {t}, RemoveFromSeries(series, t.kind.series, t.id))
  {
    var s := t.kind.series;
    var series' := RemoveFromSeries(series, s, t.id);
    forall r, i | r in series' && 0 <= i < |series'[r]|
      ensures series'[r][i] in listed - {t} && series'[r][i].kind.OnReading? && series'[r][i].kind.series == r
    {
      assert series'[r][i] in series[r];
    }
    forall u | u in listed - {t} && u.kind.OnReading? ensures u.kind.series in series' && u in series'[u.kind.series] {
      assert u in series[u.kind.series];
      assert u.kind.series == s ==> u in Without(series[s], t.id);
    }
  }

  lemma SeriesSame(listed: set<Trigger>, series: map<Series, seq<Trigger>>, t: Trigger)
    requires SeriesOk(listed, series) && !t.kind.OnReading?
    ensures SeriesOk(listed + {t}, series) && SeriesOk(listed - {t}, series)
  {
  }

  lemma IdsGain(listed: set<Trigger>, t: Trigger)
    ensures ReadingIds(listed + {t}) == ReadingIds(listed) + if t.kind.OnReading? then {t.id} else {}
    ensures TimeIds(listed + {t}) == TimeIds(listed) + if t.kind.OnReading? then {} else {t.id}
  {
  }

  lemma IdsLose(listed: set<Trigger>, t: Trigger)
    requires forall u :: u in listed && u.id == t.id ==> u == t
    ensures ReadingIds(listed - {t}) == ReadingIds(listed) - {t.id}
    ensures TimeIds(listed - {t}) == TimeIds(listed) - {t.id}
  {
  }

  // ---------- One automation more or less ----------

  lemma ListedAreOwned(automations: map<int, Automation>, triggers: map<int, int>, t: Trigger)
    requires IndexOk(automations, triggers) && t in Listed(automations)
    ensures t.id in triggers && triggers[t.id] in automations && Armed(automations[triggers[t.id]])
    ensures t in automations[triggers[t.id]].triggers && TriggerOk(t)
  {
    var id, i :| id in automations && Armed(automations[id]) && 0 <= i < |automations[id].triggers|
      && automations[id].triggers[i] == t;
    assert HasTrigger(automations[id], t.id);
  }

  /** No two triggers share an ID, listed or not. */
  lemma OneTriggerPerId(automations: map<int, Automation>, triggers: map<int, int>, a: int, i: nat, t: Trigger)
    requires IndexOk(automations, triggers) && t in Listed(automations)
    requires a in automations && i < |automations[a].triggers| && automations[a].triggers[i].id == t.id
    ensures automations[a].triggers[i] == t && Armed(automations[a])
  {
    ListedAreOwned(automations, triggers, t);
    assert HasTrigger(automations[a], t.id);
    assert triggers[t.id] == a;
    assert AutomationOk(automations[a]);
  }

  lemma OnlyItsOwn(automations: map<int, Automation>, triggers: map<int, int>, a: int, i: nat)
    requires IndexOk(automations, triggers) && a in automations && i < |automations[a].triggers|
    ensures var t := automations[a].triggers[i];
            forall u :: u in Listed(automations) && u.id == t.id ==> u == t
  {
    var t := automations[a].triggers[i];
    forall u | u in Listed(automations) && u.id == t.id ensures u == t {
      OneTriggerPerId(automations, triggers, a, i, u);
    }
  }

  lemma ListedWithout(automations: map<int, Automation>, triggers: map<int, int>, a: int)
    requires IndexOk(automations, triggers) && a in automations
    ensures Listed(automations - {a}) == Listed(automations) - TriggersOf(automations[a], |automations[a].triggers|)
  {
    var left := automations - {a};
    forall t | t in Listed(automations) && t !in TriggersOf(automations[a], |automations[a].triggers|)
      ensures t in Listed(left)
    {
      var id, i :| id in automations && Armed(automations[id]) && 0 <= i < |automations[id].triggers|
        && automations[id].triggers[i] == t;
      assert id in left && left[id].triggers[i] == t;
    }
    forall t | t in Listed(left)
      ensures t in Listed(automations) && t !in TriggersOf(automations[a], |automations[a].triggers|)
    {
      var id, i :| id in left && Armed(left[id]) && 0 <= i < |left[id].triggers| && left[id].triggers[i] == t;
      assert automations[id].triggers[i] == t;
      assert HasTrigger(automations[id], t.id);
      assert id != a && triggers[t.id] == id;
      assert !HasTrigger(automations[a], t.id);
    }
  }

  lemma ListedDisjoint(automations: map<int, Automation>, triggers: map<int, int>, a: Automation)
    requires IndexOk(automations, triggers) && forall i :: 0 <= i < |a.triggers| ==> a.triggers[i].id !in triggers
    ensures forall u, i :: u in Listed(automations) && 0 <= i < |a.triggers| ==> u.id != a.triggers[i].id
  {
    forall u | u in Listed(automations) ensures u.id in triggers {
      ListedAreOwned(automations, triggers, u);
    }
  }

  lemma ListedWith(automations: map<int, Automation>, a: Automation)
    requires a.id !in automations
    ensures Listed(automations[a.id := a]) == Listed(automations) + if Armed(a) then TriggersOf(a, |a.triggers|) else {}
  {
    var more := automations[a.id := a];
    forall t | t in Listed(automations) ensures t in Listed(more) {
      var id, i :| id in automations && Armed(automations[id]) && 0 <= i < |automations[id].triggers|
        && automations[id].triggers[i] == t;
      assert more[id].triggers[i] == t;
    }
    forall t | Armed(a) && t in TriggersOf(a, |a.triggers|) ensures t in Listed(more) {
      var i :| 0 <= i < |a.triggers| && a.triggers[i] == t;
      assert more[a.id].triggers[i] == t;
    }
  }

  ghost function IdsOf(a: Automation, n: nat): set<int>
    requires n <= |a.triggers|
  {
    set i | 0 <= i < n :: a.triggers[i].id
  }

  /** The IDs of the triggers of the automation of the ID given, if there is one. */
  ghost function TriggerIds(automations: map<int, Automation>, id: int): set<int> {
    if id in automations then IdsOf(automations[id], |automations[id].triggers|) else {}
  }

  /** The IDs of the triggers an automation has armed, if it is armed. */
  ghost function ArmedIds(a: Automation): set<int> {
    if Armed(a) then IdsOf(a, |a.triggers|) else {}
  }

  lemma OneMoreTrigger(a: Automation, i: nat, listed: set<Trigger>)
    requires i < |a.triggers|
    ensures listed + TriggersOf(a, i + 1) == listed + TriggersOf(a, i) + {a.triggers[i]}
    ensures listed - TriggersOf(a, i + 1) == listed - TriggersOf(a, i) - {a.triggers[i]}
    ensures IdsOf(a, i + 1) == IdsOf(a, i) + {a.triggers[i].id}
  {
  }

  lemma NoTriggerYet(a: Automation, listed: set<Trigger>)
    ensures listed + TriggersOf(a, 0) == listed == listed - TriggersOf(a, 0) && IdsOf(a, 0) == {}
  {
  }

  lemma IndexWithout(automations: map<int, Automation>, triggers: map<int, int>, a: int)
    requires IndexOk(automations, triggers) && a in automations
    ensures IndexOk(automations - {a}, triggers - IdsOf(automations[a], |automations[a].triggers|))
  {
    var (ids, left) := (IdsOf(automations[a], |automations[a].triggers|), automations - {a});
    assert forall t :: t in ids <==> HasTrigger(automations[a], t);
    forall t, b | b in left && HasTrigger(left[b], t) ensures t !in ids && t in triggers && triggers[t] == b {
      assert b != a && HasTrigger(automations[b], t) && triggers[t] == b;
      assert !HasTrigger(automations[a], t);
    }
  }

  lemma IndexWith(automations: map<int, Automation>, triggers: map<int, int>, a: Automation, triggers': map<int, int>)
    requires IndexOk(automations, triggers) && a.id !in automations && AutomationOk(a)
    requires forall i :: 0 <= i < |a.triggers| ==> a.triggers[i].id !in triggers
    requires triggers'.Keys == triggers.Keys + IdsOf(a, |a.triggers|)
    requires forall t :: t in triggers' ==> triggers'[t] == if t in triggers then triggers[t] else a.id
    ensures IndexOk(automations[a.id := a], triggers')
  {
    var ids := IdsOf(a, |a.triggers|);
    assert forall t :: t in ids <==> HasTrigger(a, t);
  }

  // ---------- Scheduler entries and holds ----------

  /** A restart arms each trigger from the due time it was armed for last. */
  ghost predicate EntriesSaved(entries: map<DueKey, Instant>, saved: map<int, Instant>) {
    forall id {:trigger TriggerKey(id)} ::
      TriggerKey(id) in entries ==> id in saved && saved[id] == entries[TriggerKey(id)]
  }

  /** Nothing is added to the entries or moved. */
  ghost predicate NoneAdded(entries: map<DueKey, Instant>, entries': map<DueKey, Instant>) {
    forall key :: key in entries' ==> key in entries && entries'[key] == entries[key]
  }

  ghost predicate SavedSame(saved: map<int, Instant>, saved': map<int, Instant>, id: int) {
    (id in saved <==> id in saved') && (id in saved ==> saved'[id] == saved[id])
  }

  /** Only the triggers named have their due times changed, with the scheduler and in the store. */
  ghost predicate OnlyTheirs(ids: set<int>, entries: map<DueKey, Instant>, entries': map<DueKey, Instant>,
                             saved: map<int, Instant>, saved': map<int, Instant>) {
    && (forall key: DueKey :: !(key.kind.DueTrigger? && key.id in ids) ==> SameAt(entries, entries', key))
    && (forall id :: id !in ids ==> SavedSame(saved, saved', id))
  }

  /** Nothing is changed, with the scheduler or in the store, but of the triggers named. */
  ghost predicate OthersKept(ids: set<int>, entries: map<DueKey, Instant>, entries': map<DueKey, Instant>,
                             saved: map<int, Instant>, saved': map<int, Instant>) {
    && (forall key: DueKey :: key.kind.DueResume? || key.id !in ids ==> SameAt(entries, entries', key))
    && (forall id :: id !in ids ==> SavedSame(saved, saved', id))
  }

  lemma AllKept(ids: set<int>, entries: map<DueKey, Instant>, saved: map<int, Instant>)
    ensures OthersKept(ids, entries, entries, saved, saved)
  {
  }

  lemma TheirsAreKept(ids: set<int>, entries: map<DueKey, Instant>, entries': map<DueKey, Instant>,
                      saved: map<int, Instant>, saved': map<int, Instant>)
    requires OnlyTheirs(ids, entries, entries', saved, saved')
    ensures OthersKept(ids, entries, entries', saved, saved')
  {
  }

  lemma MoreKept(ids: set<int>, more: set<int>,
                 entries: map<DueKey, Instant>, entries': map<DueKey, Instant>, entries'': map<DueKey, Instant>,
                 saved: map<int, Instant>, saved': map<int, Instant>, saved'': map<int, Instant>)
    requires OthersKept(ids, entries, entries', saved, saved') && OthersKept(more, entries', entries'', saved', saved'')
    ensures OthersKept(ids + more, entries, entries'', saved, saved'')
  {
    forall key: DueKey | key.kind.DueResume? || key.id !in ids + more ensures SameAt(entries, entries'', key) {
      assert SameAt(entries, entries', key) && SameAt(entries', entries'', key);
    }
    forall id | id !in ids + more ensures SavedSame(saved, saved'', id) {
      assert SavedSame(saved, saved', id) && SavedSame(saved', saved'', id);
    }
  }

  lemma NothingOfTheirs(ids: set<int>, entries: map<DueKey, Instant>, saved: map<int, Instant>)
    ensures OnlyTheirs(ids, entries, entries, saved, saved)
  {
  }

  lemma OneOfTheirs(ids: set<int>, entries: map<DueKey, Instant>, entries': map<DueKey, Instant>,
                    saved: map<int, Instant>, saved': map<int, Instant>, id: int, due: Instant)
    requires OnlyTheirs(ids, entries, entries', saved, saved') && id in ids
    ensures OnlyTheirs(ids, entries, entries'[TriggerKey(id) := due], saved, saved'[id := due])
  {
    forall key: DueKey | !(key.kind.DueTrigger? && key.id in ids)
      ensures SameAt(entries, entries'[TriggerKey(id) := due], key)
    {
      assert SameAt(entries, entries', key);
    }
    forall other | other !in ids ensures SavedSame(saved, saved'[id := due], other) {
      assert SavedSame(saved, saved', other);
    }
  }

  /** Each of an armed automation's time triggers is armed, counting from when it was due before if it was. */
  ghost predicate ArmedFrom(z: Zone, a: Automation, entries: map<DueKey, Instant>, now: Instant) {
    Armed(a) ==>
      forall i ::
        0 <= i < |a.triggers| && !a.triggers[i].kind.OnReading? ==> TriggerArmed(z, a.triggers[i], entries, now)
  }

  ghost predicate TriggerArmed(z: Zone, t: Trigger, entries: map<DueKey, Instant>, now: Instant) {
    && (t.kind.OnInterval? ==> t.kind.interval > 0)
    && TriggerKey(t.id) in entries && entries[TriggerKey(t.id)] > now
    && IsNextDue(z, t.kind, t.nextDueAt.GetOr(now), now, entries[TriggerKey(t.id)])
  }

  ghost predicate ScheduleArmed(z: Zone, t: Trigger, entries: map<DueKey, Instant>, now: Instant)
    requires t.kind.OnSchedule?
  {
    TriggerKey(t.id) in entries && IsNextDue(z, t.kind, now, now, entries[TriggerKey(t.id)])
  }

  ghost predicate SchedulesArmed(z: Zone, a: Automation, entries: map<DueKey, Instant>, now: Instant) {
    forall i ::
      0 <= i < |a.triggers| && a.triggers[i].kind.OnSchedule? ==> ScheduleArmed(z, a.triggers[i], entries, now)
  }

  /** Some schedules are armed for their next time on the zone's clock, and nothing else changes. */
  ghost predicate OnlyRescheduled(listed: set<Trigger>, z: Zone, entries: map<DueKey, Instant>,
                                  entries': map<DueKey, Instant>, now: Instant) {
    && (forall key :: key in entries ==> key in entries')
    && (forall key :: key in entries' ==>
          || (key in entries && entries'[key] == entries[key])
          || exists t ::
               t in listed && t.kind.OnSchedule? && key == TriggerKey(t.id) && ScheduleArmed(z, t, entries', now))
  }

  /** Triggers are armed for after now, and nothing else changes. */
  ghost predicate OnlyArmed(entries: map<DueKey, Instant>, entries': map<DueKey, Instant>, now: Instant) {
    && (forall key :: key in entries ==> key in entries')
    && (forall key ::
          key in entries' ==>
            (key in entries && entries'[key] == entries[key]) || (key.kind.DueTrigger? && entries'[key] > now))
  }

  lemma EntriesGain(listed: set<Trigger>, entries: map<DueKey, Instant>, popped: seq<Popped>, t: Trigger, due: Instant)
    requires EntriesOk(listed, entries, popped)
    ensures EntriesOk(listed + {t}, if t.kind.OnReading? then entries else entries[TriggerKey(t.id) := due], popped)
  {
    IdsGain(listed, t);
  }

  lemma EntriesLose(listed: set<Trigger>, entries: map<DueKey, Instant>, popped: seq<Popped>, t: Trigger)
    requires EntriesOk(listed, entries, popped)
    requires forall u :: u in listed && u.id == t.id ==> u == t
    ensures EntriesOk(listed - {t}, entries - {TriggerKey(t.id), HoldKey(t.id)}, popped)
  {
    IdsLose(listed, t);
  }

  lemma HoldsGain(edges: map<int, EdgeState>, entries: map<DueKey, Instant>, popped: seq<Popped>, id: int, due: Instant)
    requires HoldsOk(edges, entries, popped)
    ensures HoldsOk(edges[id := NEW_EDGE], entries, popped) && HoldsOk(edges, entries[TriggerKey(id) := due], popped)
  {
  }

  lemma HoldsLose(edges: map<int, EdgeState>, entries: map<DueKey, Instant>, popped: seq<Popped>, id: int)
    requires HoldsOk(edges, entries, popped)
    ensures HoldsOk(edges - {id}, entries - {TriggerKey(id), HoldKey(id)}, popped)
  {
  }

  lemma AgreeGains(listed: set<Trigger>, series: map<Series, seq<Trigger>>, edges: map<int, EdgeState>,
                   entries: map<DueKey, Instant>, popped: seq<Popped>, t: Trigger, due: Instant)
    requires Agree(listed, series, edges, entries, popped) && t !in listed
    ensures if t.kind.OnReading? then
              Agree(listed + {t}, AddToSeries(series, t.kind.series, t), edges[t.id := NEW_EDGE], entries, popped)
            else Agree(listed + {t}, series, edges, entries[TriggerKey(t.id) := due], popped)
  {
    hide SeriesOk, EntriesOk, HoldsOk, ReadingIds, TimeIds;
    IdsGain(listed, t);
    EntriesGain(listed, entries, popped, t, due);
    HoldsGain(edges, entries, popped, t.id, due);
    if t.kind.OnReading? {
      SeriesGains(listed, series, t);
    } else {
      SeriesSame(listed, series, t);
    }
  }

  lemma EdgesAreListed(automations: map<int, Automation>, series: map<Series, seq<Trigger>>, edges: map<int, EdgeState>,
                       entries: map<DueKey, Instant>, popped: seq<Popped>)
    requires Agree(Listed(automations), series, edges, entries, popped)
    ensures edges.Keys == ReadingIds(Listed(automations))
  {
  }

  lemma NoEdgesYet(series: map<Series, seq<Trigger>>, edges: map<int, EdgeState>, entries: map<DueKey, Instant>,
                   popped: seq<Popped>)
    requires Agree(Listed(map[]), series, edges, entries, popped)
    ensures edges == map[]
  {
    assert edges.Keys == {};
  }

  /** A trigger not listed yet has no hold with the scheduler. */
  lemma NoHoldYet(listed: set<Trigger>, series: map<Series, seq<Trigger>>, edges: map<int, EdgeState>,
                  entries: map<DueKey, Instant>, popped: seq<Popped>, t: Trigger)
    requires Agree(listed, series, edges, entries, popped) && forall u :: u in listed ==> u.id != t.id
    ensures HoldKey(t.id) !in entries
  {
  }

  lemma AgreeLoses(listed: set<Trigger>, series: map<Series, seq<Trigger>>, edges: map<int, EdgeState>,
                   entries: map<DueKey, Instant>, popped: seq<Popped>, t: Trigger)
    requires Agree(listed, series, edges, entries, popped)
    requires forall u :: u in listed && u.id == t.id ==> u == t
    ensures Agree(listed - {t}, if t.kind.OnReading? then RemoveFromSeries(series, t.kind.series, t.id) else series,
                  edges - {t.id}, entries - {TriggerKey(t.id), HoldKey(t.id)}, popped)
  {
    hide SeriesOk, EntriesOk, HoldsOk, ReadingIds, TimeIds;
    IdsLose(listed, t);
    EntriesLose(listed, entries, popped, t);
    HoldsLose(edges, entries, popped, t.id);
    if t.kind.OnReading? {
      SeriesLoses(listed, series, t);
    } else {
      SeriesSame(listed, series, t);
    }
  }

  /** An armed time trigger may be armed for another time. */
  lemma AgreeMoves(listed: set<Trigger>, series: map<Series, seq<Trigger>>, edges: map<int, EdgeState>,
                   entries: map<DueKey, Instant>, popped: seq<Popped>, t: Trigger, due: Instant)
    requires Agree(listed, series, edges, entries, popped) && t in listed && !t.kind.OnReading?
    ensures Agree(listed, series, edges, entries[TriggerKey(t.id) := due], popped)
  {
    hide SeriesOk;
  }

  lemma OwnIds(automations: map<int, Automation>, triggers: map<int, int>, id: int)
    requires IndexOk(automations, triggers) && id in automations
    ensures automations[id].id == id && AutomationOk(automations[id])
    ensures var a := automations[id];
            forall i :: 0 <= i < |a.triggers| ==> a.triggers[i].id in triggers && triggers[a.triggers[i].id] == id
  {
    var a := automations[id];
    forall i | 0 <= i < |a.triggers| ensures HasTrigger(a, a.triggers[i].id) {}
  }

  lemma ListedKinds(timed: iset<int>, automations: map<int, Automation>, popped: seq<Popped>, t: Trigger)
    requires KindsOk(timed, automations, popped) && t in Listed(automations)
    ensures KindOk(timed, t)
  {
  }

  lemma OwnKinds(timed: iset<int>, automations: map<int, Automation>, popped: seq<Popped>)
    requires KindsOk(timed, automations, popped)
    ensures forall id, i ::
              id in automations && 0 <= i < |automations[id].triggers| ==> KindOk(timed, automations[id].triggers[i])
  {
  }

  lemma KindsWithout(timed: iset<int>, automations: map<int, Automation>, popped: seq<Popped>, id: int)
    requires KindsOk(timed, automations, popped)
    ensures KindsOk(timed, automations - {id}, popped)
  {
  }

  lemma KindsTaken(timed: iset<int>, automations: map<int, Automation>, popped: seq<Popped>)
    requires KindsOk(timed, automations, popped) && popped != []
    ensures KindsOk(timed, automations, popped[1..])
  {
  }

  lemma IndexFacts(automations: map<int, Automation>, triggers: map<int, int>, id: int)
    requires IndexOk(automations, triggers)
    ensures id in triggers ==> triggers[id] in automations && automations[triggers[id]].id == triggers[id]
  {
  }

  lemma TimeIdsAreTimed(timed: iset<int>, automations: map<int, Automation>, triggers: map<int, int>,
                        popped: seq<Popped>, id: int)
    requires KindsOk(timed, automations, popped) && id in TimeIds(Listed(automations))
    ensures id in timed
  {
    var t :| t in Listed(automations) && !t.kind.OnReading? && t.id == id;
    ListedKinds(timed, automations, popped, t);
  }

  /** The first popped entry may be taken when what it was for needs it no more. */
  lemma AgreeTaken(listed: set<Trigger>, series: map<Series, seq<Trigger>>, edges: map<int, EdgeState>,
                   entries: map<DueKey, Instant>, popped: seq<Popped>)
    requires Agree(listed, series, edges, entries, popped) && popped != []
    requires popped[0].key.kind.DueTrigger? ==> popped[0].key in entries || popped[0].key.id !in TimeIds(listed)
    requires popped[0].key.kind.DueHold? && popped[0].key.id in edges && edges[popped[0].key.id].holding ==>
               edges[popped[0].key.id].holdUntil != popped[0].due
    ensures Agree(listed, series, edges, entries, popped[1..])
  {
    hide SeriesOk;
    PoppedTaken(listed, edges, entries, popped);
  }

  /** A popped trigger still armed is one of an armed automation's time triggers; otherwise nothing needs it. */
  lemma TriggerTaken(automations: map<int, Automation>, triggers: map<int, int>, timed: iset<int>,
                     series: map<Series, seq<Trigger>>,
                     edges: map<int, EdgeState>, entries: map<DueKey, Instant>, popped: seq<Popped>)
    requires IndexOk(automations, triggers) && KindsOk(timed, automations, popped)
    requires Agree(Listed(automations), series, edges, entries, popped)
    requires popped != [] && popped[0].key.kind.DueTrigger?
    ensures 0 !in automations
    ensures var id := popped[0].key.id;
            if id in triggers && Armed(automations[triggers[id]]) then
              var a := automations[triggers[id]];
              && HasTrigger(a, id)
              && forall t :: t in a.triggers && t.id == id ==> t in Listed(automations) && TimeTrigger(t.kind)
            else Agree(Listed(automations), series, edges, entries, popped[1..])
  {
    var id := popped[0].key.id;
    if id in triggers && Armed(automations[triggers[id]]) {
      var a := automations[triggers[id]];
      OwnIds(automations, triggers, triggers[id]);
      forall t | t in a.triggers && t.id == id ensures t in Listed(automations) && TimeTrigger(t.kind) {
        var i :| 0 <= i < |a.triggers| && a.triggers[i] == t;
        ListedHas(automations, triggers[id], i);
        assert KindOk(timed, t) && TriggerOk(a.triggers[i]);
      }
    } else {
      if id in TimeIds(Listed(automations)) {
        var t :| t in Listed(automations) && !t.kind.OnReading? && t.id == id;
        ListedAreOwned(automations, triggers, t);
      }
      AgreeTaken(Listed(automations), series, edges, entries, popped);
    }
  }

  lemma EdgeIsOwned(automations: map<int, Automation>, triggers: map<int, int>, id: int)
    requires IndexOk(automations, triggers) && id in ReadingIds(Listed(automations))
    ensures id in triggers && triggers[id] in automations && automations[triggers[id]].id == triggers[id]
    ensures Armed(automations[triggers[id]]) && HasTrigger(automations[triggers[id]], id)
  {
    var t :| t in Listed(automations) && t.kind.OnReading? && t.id == id;
    ListedAreOwned(automations, triggers, t);
  }

  /** A popped hold may be taken once its edge no longer holds until then. */
  lemma HoldTaken(listed: set<Trigger>, series: map<Series, seq<Trigger>>, edges: map<int, EdgeState>,
                  edges': map<int, EdgeState>,
                  entries: map<DueKey, Instant>, popped: seq<Popped>)
    requires Agree(listed, series, edges, entries, popped) && popped != [] && popped[0].key.kind.DueHold?
    requires var (id, due) := (popped[0].key.id, popped[0].due);
             edges' == if id in edges && Elapsed(edges[id], due).1 then edges[id := Elapsed(edges[id], due).0]
             else edges
    ensures Agree(listed, series, edges', entries, popped[1..])
  {
    hide SeriesOk;
    assert HoldsOk(edges', entries, popped);
    PoppedTaken(listed, edges', entries, popped);
  }

  // ---------- A reading ----------

  /** The edge after a reading, with the run that led to the reading kept if a hold begins. */
  function Seen(e: EdgeState, c: ReadingCondition, reading: Reading, cause: Option<int>, now: Instant): EdgeState {
    var (state, action) := Observed(e, c, reading, now);
    if action.Hold? then state.(holdCause := cause) else state
  }

  function EntriesSeen(entries: map<DueKey, Instant>, e: EdgeState, t: Trigger, reading: Reading,
                       now: Instant): map<DueKey, Instant>
    requires t.kind.OnReading?
  {
    var (state, action) := Observed(e, t.kind.condition, reading, now);
    match action
    case Hold => entries[HoldKey(t.id) := state.holdUntil]
    case Release => entries - {HoldKey(t.id)}
    case _ => entries
  }

  /** One trigger's edge sees a reading, and its hold is scheduled, or taken off the schedule, to match. */
  ghost predicate SeenBy(t: Trigger, reading: Reading, cause: Option<int>, now: Instant, edges: map<int, EdgeState>,
                         edges': map<int, EdgeState>,
                         entries: map<DueKey, Instant>, entries': map<DueKey, Instant>)
    requires t.kind.OnReading? && t.id in edges
  {
    && edges' == edges[t.id := Seen(edges[t.id], t.kind.condition, reading, cause, now)]
    && entries' == EntriesSeen(entries, edges[t.id], t, reading, now)
  }

  lemma SeenKeeps(listed: set<Trigger>, series: map<Series, seq<Trigger>>, edges: map<int, EdgeState>,
                  entries: map<DueKey, Instant>,
                  popped: seq<Popped>, t: Trigger, reading: Reading, cause: Option<int>, now: Instant)
    requires Agree(listed, series, edges, entries, popped) && t in listed && t.kind.OnReading? && t.id in edges
    ensures Agree(listed, series, edges[t.id := Seen(edges[t.id], t.kind.condition, reading, cause, now)],
                  EntriesSeen(entries, edges[t.id], t, reading, now), popped)
  {
    hide SeriesOk, Test;
  }

  lemma SeenSaved(entries: map<DueKey, Instant>, saved: map<int, Instant>, edges: map<int, EdgeState>, t: Trigger,
                  reading: Reading, cause: Option<int>, now: Instant)
    requires EntriesSaved(entries, saved) && t.kind.OnReading? && t.id in edges
    ensures EntriesSaved(EntriesSeen(entries, edges[t.id], t, reading, now), saved)
  {
    hide Observed;
  }

  function SeriesTriggers(series: map<Series, seq<Trigger>>, s: Series): seq<Trigger> {
    if s in series then series[s] else []
  }

  ghost predicate Distinct(list: seq<Trigger>) {
    && (forall i :: 0 <= i < |list| ==> list[i].kind.OnReading?)
    && (forall i, j :: 0 <= i < j < |list| ==> list[i].id != list[j].id)
  }

  /** Every trigger armed on a series is on its list once, and each has an edge and an armed automation. */
  lemma SeriesIsListed(automations: map<int, Automation>, triggers: map<int, int>, series: map<Series, seq<Trigger>>,
                       edges: map<int, EdgeState>, entries: map<DueKey, Instant>, popped: seq<Popped>, s: Series)
    requires IndexOk(automations, triggers) && Agree(Listed(automations), series, edges, entries, popped)
    ensures var list := SeriesTriggers(series, s);
            && Distinct(list)
            && (forall t :: t in list <==> t in Listed(automations) && t.kind.OnReading? && t.kind.series == s)
            && (forall i ::
                  0 <= i < |list| ==>
                    list[i].id in edges && list[i].id in triggers && triggers[list[i].id] in automations)
            && (forall i :: 0 <= i < |list| ==> automations[triggers[list[i].id]].id == triggers[list[i].id])
            && (forall i :: 0 <= i < |list| ==> Armed(automations[triggers[list[i].id]]))
  {
    var list := SeriesTriggers(series, s);
    OneListedPerId(automations, triggers);
    forall i | 0 <= i < |list|
      ensures list[i].id in edges && list[i].id in triggers && triggers[list[i].id] in automations
              && automations[triggers[list[i].id]].id == triggers[list[i].id]
              && Armed(automations[triggers[list[i].id]])
    {
      ListedAreOwned(automations, triggers, list[i]);
    }
  }

  /** The triggers' edges see the reading, each as it stood, and nothing else changes. */
  ghost predicate AllSeen(list: seq<Trigger>, reading: Reading, cause: Option<int>, now: Instant,
                          edges: map<int, EdgeState>, edges': map<int, EdgeState>,
                          entries: map<DueKey, Instant>, entries': map<DueKey, Instant>) {
    EdgesSeen(list, reading, cause, now, edges, edges') && HoldsSeen(list, reading, now, edges, entries, entries')
  }

  ghost predicate EdgesSeen(list: seq<Trigger>, reading: Reading, cause: Option<int>, now: Instant,
                            edges: map<int, EdgeState>, edges': map<int, EdgeState>) {
    && edges'.Keys == edges.Keys
    && (forall i :: 0 <= i < |list| ==>
          && list[i].kind.OnReading? && list[i].id in edges
          && edges'[list[i].id] == Seen(edges[list[i].id], list[i].kind.condition, reading, cause, now))
    && (forall id :: id in edges && (forall i :: 0 <= i < |list| ==> list[i].id != id) ==> edges'[id] == edges[id])
  }

  ghost predicate HoldsSeen(list: seq<Trigger>, reading: Reading, now: Instant, edges: map<int, EdgeState>,
                            entries: map<DueKey, Instant>, entries': map<DueKey, Instant>) {
    && (forall i :: 0 <= i < |list| ==>
          && list[i].kind.OnReading? && list[i].id in edges
          && SameAt(EntriesSeen(entries, edges[list[i].id], list[i], reading, now), entries', HoldKey(list[i].id)))
    && (forall key :: (forall i :: 0 <= i < |list| ==> key != HoldKey(list[i].id)) ==> SameAt(entries, entries', key))
  }

  ghost predicate SameAt(a: map<DueKey, Instant>, b: map<DueKey, Instant>, key: DueKey) {
    (key in a <==> key in b) && (key in a ==> a[key] == b[key])
  }

  /** A trigger whose turn has not come is as it was. */
  lemma EdgeUntouched(list: seq<Trigger>, i: nat, reading: Reading, cause: Option<int>, now: Instant,
                      edges: map<int, EdgeState>, edges': map<int, EdgeState>,
                      entries: map<DueKey, Instant>, entries': map<DueKey, Instant>)
    requires Distinct(list) && i < |list| && list[i].id in edges
    requires AllSeen(list[..i], reading, cause, now, edges, edges', entries, entries')
    ensures list[i].id in edges' && edges'[list[i].id] == edges[list[i].id]
            && SameAt(entries, entries', HoldKey(list[i].id))
  {
  }

  lemma EdgesSeenMore(list: seq<Trigger>, t: Trigger, reading: Reading, cause: Option<int>, now: Instant,
                      edges: map<int, EdgeState>, edges1: map<int, EdgeState>, edges2: map<int, EdgeState>)
    requires t.kind.OnReading? && t.id in edges && forall i :: 0 <= i < |list| ==> list[i].id != t.id
    requires EdgesSeen(list, reading, cause, now, edges, edges1)
    requires edges2 == edges1[t.id := Seen(edges1[t.id], t.kind.condition, reading, cause, now)]
    ensures EdgesSeen(list + [t], reading, cause, now, edges, edges2)
  {
    hide Seen;
    var more := list + [t];
    forall id | id in edges && (forall i :: 0 <= i < |more| ==> more[i].id != id) ensures edges2[id] == edges[id] {
      assert more[|list|].id != id;
      assert forall i :: 0 <= i < |list| ==> list[i] == more[i];
    }
  }

  lemma HoldsSeenMore(list: seq<Trigger>, t: Trigger, reading: Reading, now: Instant,
                      edges: map<int, EdgeState>, entries: map<DueKey, Instant>, entries1: map<DueKey, Instant>,
                      entries2: map<DueKey, Instant>)
    requires t.kind.OnReading? && t.id in edges && forall i :: 0 <= i < |list| ==> list[i].id != t.id
    requires HoldsSeen(list, reading, now, edges, entries, entries1)
    requires entries2 == EntriesSeen(entries1, edges[t.id], t, reading, now)
    ensures HoldsSeen(list + [t], reading, now, edges, entries, entries2)
  {
    hide Observed;
    var more := list + [t];
    assert SameAt(entries, entries1, HoldKey(t.id));
    assert SameAt(EntriesSeen(entries, edges[t.id], t, reading, now), entries2, HoldKey(t.id));
    assert forall key :: key != HoldKey(t.id) ==> SameAt(entries1, entries2, key);
    hide EntriesSeen;
    forall key | (forall i :: 0 <= i < |more| ==> key != HoldKey(more[i].id)) ensures SameAt(entries, entries2, key) {
      assert key != HoldKey(more[|list|].id);
      assert forall i :: 0 <= i < |list| ==> list[i] == more[i];
      assert SameAt(entries, entries1, key) && SameAt(entries1, entries2, key);
    }
  }

  lemma SeenMore(list: seq<Trigger>, i: nat, reading: Reading, cause: Option<int>, now: Instant,
                 edges: map<int, EdgeState>, edges1: map<int, EdgeState>, edges2: map<int, EdgeState>,
                 entries: map<DueKey, Instant>, entries1: map<DueKey, Instant>, entries2: map<DueKey, Instant>)
    requires Distinct(list) && i < |list| && list[i].id in edges && list[i].id in edges1
    requires AllSeen(list[..i], reading, cause, now, edges, edges1, entries, entries1)
    requires SeenBy(list[i], reading, cause, now, edges1, edges2, entries1, entries2)
    ensures AllSeen(list[..i + 1], reading, cause, now, edges, edges2, entries, entries2) && edges2.Keys == edges.Keys
  {
    hide Seen, EntriesSeen;
    EdgeUntouched(list, i, reading, cause, now, edges, edges1, entries, entries1);
    assert list[..i + 1] == list[..i] + [list[i]];
    EdgesSeenMore(list[..i], list[i], reading, cause, now, edges, edges1, edges2);
    HoldsSeenMore(list[..i], list[i], reading, now, edges, entries, entries1, entries2);
  }

  // ---------- A change of zone ----------

  ghost predicate UniqueIds(listed: set<Trigger>) {
    forall t, u :: t in listed && u in listed && t.id == u.id ==> t == u
  }

  lemma OneListedPerId(automations: map<int, Automation>, triggers: map<int, int>)
    requires IndexOk(automations, triggers)
    ensures UniqueIds(Listed(automations))
  {
    forall t, u | t in Listed(automations) && u in Listed(automations) && t.id == u.id ensures t == u {
      ListedAreOwned(automations, triggers, u);
      var i :| 0 <= i < |automations[triggers[u.id]].triggers| && automations[triggers[u.id]].triggers[i] == u;
      OneTriggerPerId(automations, triggers, triggers[u.id], i, t);
    }
  }

  lemma ListedHas(automations: map<int, Automation>, id: int, i: nat)
    requires id in automations && Armed(automations[id]) && i < |automations[id].triggers|
    ensures automations[id].triggers[i] in Listed(automations)
  {
  }

  lemma NothingRescheduled(listed: set<Trigger>, z: Zone, entries: map<DueKey, Instant>, now: Instant)
    ensures OnlyRescheduled(listed, z, entries, entries, now)
  {
  }

  lemma Rescheduled(listed: set<Trigger>, z: Zone, before: map<DueKey, Instant>, entries: map<DueKey, Instant>,
                    t: Trigger, due: Instant, now: Instant)
    requires OnlyRescheduled(listed, z, before, entries, now)
    requires t in listed && t.kind.OnSchedule? && IsNextDue(z, t.kind, now, now, due)
    ensures OnlyRescheduled(listed, z, before, entries[TriggerKey(t.id) := due], now)
    ensures ScheduleArmed(z, t, entries[TriggerKey(t.id) := due], now)
  {
    var entries' := entries[TriggerKey(t.id) := due];
    assert ScheduleArmed(z, t, entries', now);
    forall key | key in entries' && key != TriggerKey(t.id) && !(key in before && entries'[key] == before[key])
      ensures exists u ::
                u in listed && u.kind.OnSchedule? && key == TriggerKey(u.id) && ScheduleArmed(z, u, entries', now)
    {
      var u :| u in listed && u.kind.OnSchedule? && key == TriggerKey(u.id) && ScheduleArmed(z, u, entries, now);
      assert ScheduleArmed(z, u, entries', now);
    }
  }

  lemma StillArmed(listed: set<Trigger>, z: Zone, entries: map<DueKey, Instant>, entries': map<DueKey, Instant>,
                   t: Trigger, now: Instant)
    requires UniqueIds(listed) && OnlyRescheduled(listed, z, entries, entries', now)
    requires t in listed && t.kind.OnSchedule? && ScheduleArmed(z, t, entries, now)
    ensures ScheduleArmed(z, t, entries', now)
  {
  }

  lemma AllSchedulesArmed(automations: map<int, Automation>, z: Zone, entries: map<DueKey, Instant>, now: Instant)
    requires forall id ::
               id in automations && Armed(automations[id]) ==> SchedulesArmed(z, automations[id], entries, now)
    ensures forall t :: t in Listed(automations) && t.kind.OnSchedule? ==> ScheduleArmed(z, t, entries, now)
  {
  }

  /** Schedules armed before are armed still when others are rescheduled. */
  lemma SchedulesStillArmed(automations: map<int, Automation>, z: Zone, entries: map<DueKey, Instant>,
                            entries': map<DueKey, Instant>, id: int, now: Instant)
    requires UniqueIds(Listed(automations)) && OnlyRescheduled(Listed(automations), z, entries, entries', now)
    requires id in automations && Armed(automations[id]) && SchedulesArmed(z, automations[id], entries, now)
    ensures SchedulesArmed(z, automations[id], entries', now)
  {
    var a := automations[id];
    forall i | 0 <= i < |a.triggers| && a.triggers[i].kind.OnSchedule?
      ensures ScheduleArmed(z, a.triggers[i], entries', now)
    {
      ListedHas(automations, id, i);
      StillArmed(Listed(automations), z, entries, entries', a.triggers[i], now);
    }
  }

  lemma LessIsSaved(entries: map<DueKey, Instant>, saved: map<int, Instant>, id: int)
    ensures entries - {TriggerKey(id)} - {HoldKey(id)} == entries - {TriggerKey(id), HoldKey(id)}
    ensures NoneAdded(entries, entries - {TriggerKey(id), HoldKey(id)})
    ensures OthersKept({id}, entries, entries - {TriggerKey(id), HoldKey(id)}, saved, saved)
    ensures EntriesSaved(entries, saved) ==> EntriesSaved(entries - {TriggerKey(id), HoldKey(id)}, saved)
  {
  }

  lemma SavedMoves(entries: map<DueKey, Instant>, saved: map<int, Instant>, id: int, due: Instant)
    requires EntriesSaved(entries, saved)
    ensures EntriesSaved(entries[TriggerKey(id) := due], saved[id := due])
  {
  }

  /** What is no longer in the scheduler when due entries are popped has been popped. */
  lemma PoppedStillPending(listed: set<Trigger>, edges: map<int, EdgeState>, entries: map<DueKey, Instant>,
                           due: seq<Popped>, now: Instant)
    requires EntriesOk(listed, entries, []) && HoldsOk(edges, entries, []) && PopsAllDue(entries, due, now)
    ensures EntriesOk(listed, LaterThan(entries, now), due) && HoldsOk(edges, LaterThan(entries, now), due)
  {
    forall id | id in edges && edges[id].holding && HoldKey(id) !in LaterThan(entries, now)
      ensures Popped(HoldKey(id), edges[id].holdUntil) in due
    {
      var i :| 0 <= i < |due| && due[i].key == HoldKey(id);
      assert due[i] == Popped(HoldKey(id), edges[id].holdUntil);
    }
  }

  /** Taking the first popped entry leaves the others pending. */
  lemma PoppedTaken(listed: set<Trigger>, edges: map<int, EdgeState>, entries: map<DueKey, Instant>,
                    popped: seq<Popped>)
    requires EntriesOk(listed, entries, popped) && HoldsOk(edges, entries, popped) && popped != []
    requires popped[0].key.kind.DueTrigger? ==> popped[0].key in entries || popped[0].key.id !in TimeIds(listed)
    requires popped[0].key.kind.DueHold? && popped[0].key.id in edges && edges[popped[0].key.id].holding ==>
               edges[popped[0].key.id].holdUntil != popped[0].due
    ensures EntriesOk(listed, entries, popped[1..]) && HoldsOk(edges, entries, popped[1..])
  {
    forall id {:trigger TriggerKey(id)} | id in TimeIds(listed) && TriggerKey(id) !in entries
      ensures IsPopped(popped[1..], TriggerKey(id))
    {
      var i :| 0 <= i < |popped| && popped[i].key == TriggerKey(id);
      assert popped[1..][i - 1].key == TriggerKey(id);
    }
  }

  /** A trigger that fired is armed again, and its popped entry taken. */
  lemma FiredKeeps(timed: iset<int>, automations: map<int, Automation>, series: map<Series, seq<Trigger>>,
                   edges: map<int, EdgeState>,
                   entries: map<DueKey, Instant>, saved: map<int, Instant>, popped: seq<Popped>, t: Trigger,
                   due: Instant)
    requires KindsOk(timed, automations, popped) && Agree(Listed(automations), series, edges, entries, popped)
             && EntriesSaved(entries, saved)
    requires t in Listed(automations) && !t.kind.OnReading? && popped != [] && popped[0].key == TriggerKey(t.id)
    ensures KindsOk(timed, automations, popped[1..])
            && EntriesSaved(entries[TriggerKey(t.id) := due], saved[t.id := due])
    ensures Agree(Listed(automations), series, edges, entries[TriggerKey(t.id) := due], popped[1..])
  {
    hide Agree, Listed, TimeIds, ReadingIds;
    KindsTaken(timed, automations, popped);
    SavedMoves(entries, saved, t.id, due);
    AgreeMoves(Listed(automations), series, edges, entries, popped, t, due);
    AgreeTaken(Listed(automations), series, edges, entries[TriggerKey(t.id) := due], popped);
  }

  /** After a pop the indexes still agree, with what was popped pending. */
  lemma DuePopped(timed: iset<int>, automations: map<int, Automation>, triggers: map<int, int>,
                  series: map<Series, seq<Trigger>>, edges: map<int, EdgeState>,
                  entries: map<DueKey, Instant>, saved: map<int, Instant>, due: seq<Popped>, now: Instant)
    requires KindsOk(timed, automations, []) && Agree(Listed(automations), series, edges, entries, [])
             && EntriesSaved(entries, saved)
    requires PopsAllDue(entries, due, now)
    ensures KindsOk(timed, automations, due) && EntriesSaved(LaterThan(entries, now), saved)
    ensures Agree(Listed(automations), series, edges, LaterThan(entries, now), due)
  {
    PoppedStillPending(Listed(automations), edges, entries, due, now);
    forall i | 0 <= i < |due| && due[i].key.kind.DueTrigger? ensures due[i].key.id in timed {
      assert TriggerKey(due[i].key.id) in entries;
      TimeIdsAreTimed(timed, automations, triggers, [], due[i].key.id);
    }
    hide SeriesOk, EntriesOk, HoldsOk, Listed;
  }
}
