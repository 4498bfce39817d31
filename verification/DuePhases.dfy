/**
 Every due time kept for an interval trigger, in the scheduler, popped from it or
 saved in the store, through fires, edits of other automations and restarts.
 */
module DuePhases {
  import opened Wrappers
  import opened Automations
  import opened DueTimes
  import opened DueQueue
  import opened EngineIndexes

  /** Where due times are kept: with the scheduler, on their way from it, and in the store, which outlives both. */
  datatype Agenda = Agenda(entries: map<DueKey, Instant>, popped: seq<Popped>, saved: map<int, Instant>)

  ghost predicate IsDue(s: Agenda, id: int, due: Instant) {
    || (TriggerKey(id) in s.entries && s.entries[TriggerKey(id)] == due)
    || Popped(TriggerKey(id), due) in s.popped
    || (id in s.saved && s.saved[id] == due)
  }

  /** The due time follows from one kept before by re-arming, whenever that was. */
  ghost predicate Follows(s: Agenda, id: int, interval: nat, due: Instant)
    requires interval > 0
  {
    exists from, after :: IsDue(s, id, from) && IntervalDue(interval, from, after) == due
  }

  /** A trigger that was ever armed keeps only due times kept before and those that follow from them. */
  ghost predicate Step(s: Agenda, s': Agenda, id: int, interval: nat)
    requires interval > 0
  {
    id in s.saved ==>
      id in s'.saved && forall due :: IsDue(s', id, due) ==> IsDue(s, id, due) || Follows(s, id, interval, due)
  }

  ghost predicate HasInterval(a: Automation, id: int, interval: nat) {
    exists i :: 0 <= i < |a.triggers| && a.triggers[i].id == id && a.triggers[i].kind == OnInterval(interval)
  }

  /** What an operation does to all interval triggers but those of the automations it edits. */
  ghost predicate KeepsPhase(automations: map<int, Automation>, edited: set<int>, s: Agenda, s': Agenda) {
    forall a, id, interval: nat ::
      a in automations && a !in edited && interval > 0 && HasInterval(automations[a], id, interval) ==>
        Step(s, s', id, interval)
  }

  // ---------- Operations ----------

  /** No due time is new. */
  lemma NothingNew(automations: map<int, Automation>, edited: set<int>, s: Agenda, s': Agenda)
    requires forall key ::
               key in s'.entries && key.kind.DueTrigger? ==> key in s.entries && s'.entries[key] == s.entries[key]
    requires forall p :: p in s'.popped ==> p in s.popped || (p.key in s.entries && s.entries[p.key] == p.due)
    requires s'.saved == s.saved
    ensures KeepsPhase(automations, edited, s, s')
  {
    forall id, due | IsDue(s', id, due) ensures IsDue(s, id, due) {}
  }

  /** Only the triggers named are armed anew, and none of them is an unedited interval trigger. */
  lemma OthersKeepPhase(automations: map<int, Automation>, edited: set<int>, s: Agenda, dropped: map<DueKey, Instant>,
                        s': Agenda, ids: set<int>)
    requires NoneAdded(s.entries, dropped) && OnlyTheirs(ids, dropped, s'.entries, s.saved, s'.saved)
             && s'.popped == s.popped
    requires forall a, id, interval: nat ::
               a in automations && a !in edited && HasInterval(automations[a], id, interval) ==> id !in ids
    ensures KeepsPhase(automations, edited, s, s')
  {
    forall id, due | id !in ids && IsDue(s', id, due) ensures IsDue(s, id, due) {
      assert SameAt(dropped, s'.entries, TriggerKey(id)) && SavedSame(s.saved, s'.saved, id);
    }
    forall a, id, interval: nat
      | a in automations && a !in edited && interval > 0 && HasInterval(automations[a], id, interval)
      ensures Step(s, s', id, interval)
    {
      assert id !in ids && SavedSame(s.saved, s'.saved, id);
    }
  }

  /** A fire re-arms its trigger from the due time it fired for. */
  lemma FireKeepsPhase(automations: map<int, Automation>, s: Agenda, id: int, kind: TriggerKind, after: Instant,
                       next: Instant)
    requires s.popped != [] && s.popped[0].key == TriggerKey(id)
    requires kind.OnInterval? ==> kind.interval > 0 && next == IntervalDue(kind.interval, s.popped[0].due, after)
    requires forall a, interval: nat ::
               a in automations && HasInterval(automations[a], id, interval) ==> kind == OnInterval(interval)
    ensures KeepsPhase(automations, {}, s,
                       Agenda(s.entries[TriggerKey(id) := next], s.popped[1..], s.saved[id := next]))
  {
    var s' := Agenda(s.entries[TriggerKey(id) := next], s.popped[1..], s.saved[id := next]);
    assert s.popped[0] == Popped(TriggerKey(id), s.popped[0].due);
    assert IsDue(s, id, s.popped[0].due);
    forall other, due | IsDue(s', other, due) ensures IsDue(s, other, due) || (other == id && due == next) {}
    forall a, interval: nat | a in automations && interval > 0 && HasInterval(automations[a], id, interval)
      ensures Follows(s, id, interval, next)
    {
    }
  }

  /**
   When the hub dies only what is saved is left, and what startup makes of that keeps the phase of
   all that was due.
   */
  lemma DyingThenKeeps(automations: map<int, Automation>, s: Agenda, s': Agenda)
    requires KeepsPhase(automations, {}, Agenda(map[], [], s.saved), s')
    ensures KeepsPhase(automations, {}, s, s')
  {
    var dead := Agenda(map[], [], s.saved);
    forall id, due | IsDue(dead, id, due) ensures IsDue(s, id, due) {}
    forall a, id, interval: nat
      | a in automations && a !in {} && interval > 0 && HasInterval(automations[a], id, interval)
      ensures Step(s, s', id, interval)
    {
      assert Step(dead, s', id, interval);
    }
  }

  // ---------- Every history ----------

  /** One operation: the automations it found, or put in place at startup, and those of them it edited. */
  datatype Operation = Operation(automations: map<int, Automation>, edited: set<int>)

  /** Any number of operations, none of which edits the automation that has the interval trigger. */
  ghost predicate History(states: seq<Agenda>, operations: seq<Operation>, automation: int, id: int, interval: nat) {
    && |states| == |operations| + 1
    && forall k :: 0 <= k < |operations| ==>
         var o := operations[k];
         && automation in o.automations && automation !in o.edited
         && HasInterval(o.automations[automation], id, interval)
         && KeepsPhase(o.automations, o.edited, states[k], states[k + 1])
  }

  /**
   Whatever is due for an interval trigger, in the scheduler, popped or saved, is in phase with the
   first time it was armed for.
   */
  lemma {:induction false} PhaseIsKept(states: seq<Agenda>, operations: seq<Operation>, automation: int, id: int,
                                       interval: nat,
                                       first: Instant, k: nat)
    requires interval > 0 && History(states, operations, automation, id, interval) && k < |states|
    requires id in states[0].saved && forall due :: IsDue(states[0], id, due) ==> due == first
    ensures id in states[k].saved && forall due :: IsDue(states[k], id, due) ==> InPhase(first, interval, due)
  {
    if k == 0 {
      assert Nth(first, interval, 0) == first;
    } else {
      PhaseIsKept(states, operations, automation, id, interval, first, k - 1);
      assert Step(states[k - 1], states[k], id, interval);
      forall due | Follows(states[k - 1], id, interval, due) ensures InPhase(first, interval, due) {
        var from, after :| IsDue(states[k - 1], id, from) && IntervalDue(interval, from, after) == due;
        IntervalDueIsNext(interval, from, after);
        PhaseIsShared(first, interval, from, due);
      }
    }
  }
}
