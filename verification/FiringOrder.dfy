/**
 The order time triggers fire in: what the scheduler holds for them, the due
 entries it has popped and not yet handed over, and the log of what fired.
 */
module FiringOrder {
  import opened Wrappers
  import opened DueQueue

  /** started tells whether the fire asked for a run. An edit drops the automation and puts it back, or not. */
  datatype Event =
    | Fired(automation: int, trigger: int, due: Instant, started: bool)
    | Edited(automation: int)

  /** horizon is the clock's reading when the scheduler last popped. */
  datatype Timeline = Timeline(
    clock: Instant,
    horizon: Instant,
    entries: map<DueKey, Instant>,
    popped: seq<Popped>,
    lastDue: map<int, Instant>,
    log: seq<Event>)

  // ---------- Steps ----------

  /** The scheduler pops what is due, once it is done with what it popped before. */
  ghost predicate Pops(s: Timeline, s': Timeline) {
    && s.popped == [] && s'.clock >= s.clock && s'.horizon == s'.clock
    && PopsAllDue(s.entries, s'.popped, s'.clock) && s'.entries == LaterThan(s.entries, s'.clock)
    && s'.lastDue == s.lastDue && s'.log == s.log
  }

  /** A popped entry that fires no time trigger: a resume, a hold, or a trigger since disarmed. */
  ghost predicate Passes(s: Timeline, s': Timeline) {
    && s.popped != [] && s'.popped == s.popped[1..]
    && s'.clock >= s.clock && s'.horizon == s.horizon
    && s'.entries == s.entries && s'.lastDue == s.lastDue && s'.log == s.log
  }

  /** A popped trigger fires for its automation and is armed again after now. */
  ghost predicate Fires(s: Timeline, s': Timeline, automation: int, next: Instant) {
    && s.popped != [] && s.popped[0].key.kind.DueTrigger? && s'.popped == s.popped[1..]
    && s'.clock >= s.clock && s'.horizon == s.horizon
    && next > s.popped[0].due && next > s'.clock
    && var due := s.popped[0].due;
       && s'.entries == s.entries[s.popped[0].key := next]
       && s'.lastDue == s.lastDue[automation := due]
       && s'.log == s.log +
            [Fired(automation, s.popped[0].key.id, due, !(automation in s.lastDue && s.lastDue[automation] == due))]
  }

  function Edits(ids: seq<int>): seq<Event> {
    seq(|ids|, i requires 0 <= i < |ids| => Edited(ids[i]))
  }

  /** Triggers are armed for times after now, or disarmed, by an edit of some automations or a change of zone. */
  ghost predicate Arms(s: Timeline, s': Timeline, edited: seq<int>) {
    && s'.clock >= s.clock && s'.horizon == s.horizon && s'.popped == s.popped
    && (forall key :: key in s'.entries && key.kind.DueTrigger? ==>
          (key in s.entries && s'.entries[key] == s.entries[key]) || s'.entries[key] > s'.clock)
    && s'.lastDue == s.lastDue - (set i | 0 <= i < |edited| :: edited[i])
    && s'.log == s.log + Edits(edited)
  }

  ghost predicate Step(s: Timeline, s': Timeline) {
    || Pops(s, s')
    || Passes(s, s')
    || (exists automation, next :: Fires(s, s', automation, next))
    || (exists edited :: Arms(s, s', edited))
  }

  // ---------- The invariant ----------

  ghost predicate EditedBetween(log: seq<Event>, automation: int, i: int, j: int) {
    exists k :: i < k < j && 0 <= k < |log| && log[k] == Edited(automation)
  }

  /** What was popped is in order, came due by the horizon, and holds each key once. */
  ghost predicate PoppedOk(s: Timeline) {
    && s.horizon <= s.clock
    && (forall i, j ::
          0 <= i < j < |s.popped| ==> s.popped[i].due <= s.popped[j].due && s.popped[i].key != s.popped[j].key)
    && (forall i :: 0 <= i < |s.popped| ==> s.popped[i].due <= s.horizon)
    && (forall key :: key in s.entries && key.kind.DueTrigger? ==> s.entries[key] > s.horizon)
  }

  /** What has fired came due no later than what is still to be handed over, and earlier if it is the same trigger. */
  ghost predicate LogBeforePopped(s: Timeline) {
    && (forall i :: 0 <= i < |s.log| && s.log[i].Fired? ==> s.log[i].due <= s.horizon)
    && (forall i, j :: 0 <= i < |s.log| && s.log[i].Fired? && 0 <= j < |s.popped| ==>
          FiresBefore(s.log[i].due, s.log[i].trigger, s.popped[j]))
  }

  predicate FiresBefore(due: Instant, trigger: int, later: Popped) {
    later.key.kind.DueTrigger? ==> due <= later.due && (later.key.id == trigger ==> due < later.due)
  }

  ghost predicate InOrder(a: Event, b: Event)
    requires a.Fired? && b.Fired?
  {
    && (a.automation == b.automation ==> a.due <= b.due)
    && (a.trigger == b.trigger ==> a.due < b.due)
  }

  ghost predicate LogInOrder(log: seq<Event>) {
    forall i, j :: 0 <= i < j < |log| && log[i].Fired? && log[j].Fired? ==> InOrder(log[i], log[j])
  }

  ghost predicate StartedOnce(log: seq<Event>) {
    forall i, j :: 0 <= i < j < |log| && log[i].Fired? && log[j].Fired? && log[j].started
                   && log[i].automation == log[j].automation && log[i].due == log[j].due ==>
                     EditedBetween(log, log[i].automation, i, j)
  }

  ghost predicate StartedFor(log: seq<Event>, automation: int, due: Instant, i: int) {
    0 <= i < |log| && log[i].Fired? && log[i].automation == automation && log[i].due == due && log[i].started
  }

  /** A fire that starts nothing shares its due time with one before it that did. */
  ghost predicate DuplicatesFollow(log: seq<Event>) {
    forall j :: 0 <= j < |log| && log[j].Fired? && !log[j].started ==>
      exists i :: i < j && StartedFor(log, log[j].automation, log[j].due, i)
  }

  /**
   The latest due time kept for an automation is one a run was started for, and no earlier than any
   fired since its last edit.
   */
  ghost predicate LastDueOk(s: Timeline) {
    && (forall a :: a in s.lastDue ==>
          && s.lastDue[a] <= s.horizon
          && (forall j :: 0 <= j < |s.popped| && s.popped[j].key.kind.DueTrigger? ==> s.lastDue[a] <= s.popped[j].due)
          && (exists i :: StartedFor(s.log, a, s.lastDue[a], i)))
    && (forall i :: 0 <= i < |s.log| && s.log[i].Fired? && !EditedBetween(s.log, s.log[i].automation, i, |s.log|) ==>
          s.log[i].automation in s.lastDue && s.log[i].due <= s.lastDue[s.log[i].automation])
  }

  ghost predicate LogOk(log: seq<Event>) {
    LogInOrder(log) && StartedOnce(log) && DuplicatesFollow(log)
  }

  ghost predicate Inv(s: Timeline) {
    PoppedOk(s) && LogBeforePopped(s) && LastDueOk(s) && LogOk(s.log)
  }

  // ---------- Every step keeps it ----------

  lemma PopsKeeps(s: Timeline, s': Timeline)
    requires Inv(s) && Pops(s, s')
    ensures Inv(s')
  {
    forall i | 0 <= i < |s'.popped| && s'.popped[i].key.kind.DueTrigger? ensures s.horizon < s'.popped[i].due {
      assert s'.popped[i].key in s.entries;
    }
  }

  lemma PassesKeeps(s: Timeline, s': Timeline)
    requires Inv(s) && Passes(s, s')
    ensures Inv(s')
  {
  }

  /** Appending to the log leaves what it showed so far. */
  lemma EditedStill(log: seq<Event>, more: seq<Event>, automation: int, i: int, j: int)
    requires j <= |log|
    ensures EditedBetween(log + more, automation, i, j) <==> EditedBetween(log, automation, i, j)
  {
    if EditedBetween(log, automation, i, j) {
      var k :| i < k < j && 0 <= k < |log| && log[k] == Edited(automation);
      assert (log + more)[k] == Edited(automation);
    }
  }

  lemma EditedSince(log: seq<Event>, more: seq<Event>, automation: int, i: int)
    ensures EditedBetween(log, automation, i, |log|) ==> EditedBetween(log + more, automation, i, |log + more|)
  {
    if EditedBetween(log, automation, i, |log|) {
      var k :| i < k < |log| && 0 <= k && log[k] == Edited(automation);
      assert (log + more)[k] == Edited(automation);
    }
  }

  lemma DuplicatesFollowStill(log: seq<Event>, more: seq<Event>)
    requires DuplicatesFollow(log)
    requires forall k :: 0 <= k < |more| && more[k].Fired? && !more[k].started ==>
               exists i :: i < |log| && StartedFor(log, more[k].automation, more[k].due, i)
    ensures DuplicatesFollow(log + more)
  {
    var log' := log + more;
    forall j | 0 <= j < |log'| && log'[j].Fired? && !log'[j].started
      ensures exists i :: i < j && StartedFor(log', log'[j].automation, log'[j].due, i)
    {
      var i :| i < j && i < |log| && StartedFor(log, log'[j].automation, log'[j].due, i);
      assert StartedFor(log', log'[j].automation, log'[j].due, i);
    }
  }

  lemma ArmsKeeps(s: Timeline, s': Timeline, edited: seq<int>)
    requires Inv(s) && Arms(s, s', edited)
    ensures Inv(s')
  {
    var more := Edits(edited);
    DuplicatesFollowStill(s.log, more);
    forall a, i, j | 0 <= i < j <= |s.log| ensures EditedBetween(s'.log, a, i, j) <==> EditedBetween(s.log, a, i, j) {
      EditedStill(s.log, more, a, i, j);
    }
    assert LastDueOk(s') by {
      ArmsLastDue(s, s', edited);
    }
  }

  lemma ArmsLastDue(s: Timeline, s': Timeline, edited: seq<int>)
    requires Inv(s) && Arms(s, s', edited)
    ensures LastDueOk(s')
  {
    forall a | a in s'.lastDue ensures exists i :: StartedFor(s'.log, a, s'.lastDue[a], i) {
      var i :| StartedFor(s.log, a, s.lastDue[a], i);
      assert StartedFor(s'.log, a, s'.lastDue[a], i);
    }
    forall i | 0 <= i < |s'.log| && s'.log[i].Fired? && !EditedBetween(s'.log, s'.log[i].automation, i, |s'.log|)
      ensures s'.log[i].automation in s'.lastDue && s'.log[i].due <= s'.lastDue[s'.log[i].automation]
    {
      var a := s'.log[i].automation;
      assert s.log[i] == s'.log[i];
      EditedSince(s.log, Edits(edited), a, i);
      assert forall n ::
               0 <= n < |edited| && edited[n] == a ==> s'.log[|s.log| + n] == Edited(a) && i < |s.log| + n < |s'.log|;
    }
  }

  // ---------- A fire ----------

  lemma FiresPopped(s: Timeline, s': Timeline, automation: int, next: Instant)
    requires PoppedOk(s) && LogBeforePopped(s) && Fires(s, s', automation, next)
    ensures PoppedOk(s') && LogBeforePopped(s')
  {
    forall i, j | 0 <= i < |s'.log| && s'.log[i].Fired? && 0 <= j < |s'.popped|
      ensures FiresBefore(s'.log[i].due, s'.log[i].trigger, s'.popped[j])
    {
      assert s'.popped[j] == s.popped[j + 1];
      if i < |s.log| {
        assert FiresBefore(s.log[i].due, s.log[i].trigger, s.popped[j + 1]);
      }
    }
  }

  lemma FiresLastDue(s: Timeline, s': Timeline, automation: int, next: Instant)
    requires Inv(s) && Fires(s, s', automation, next)
    ensures LastDueOk(s')
  {
    FiresStarted(s, s', automation, next);
    FiresSinceEdit(s, s', automation, next);
    hide LogOk, StartedFor, LogBeforePopped, EditedBetween;
  }

  /** The latest due time is no earlier than any fired since the last edit. */
  lemma FiresSinceEdit(s: Timeline, s': Timeline, automation: int, next: Instant)
    requires Inv(s) && Fires(s, s', automation, next)
    ensures forall i ::
              0 <= i < |s'.log| && s'.log[i].Fired? && !EditedBetween(s'.log, s'.log[i].automation, i, |s'.log|) ==>
                s'.log[i].automation in s'.lastDue && s'.log[i].due <= s'.lastDue[s'.log[i].automation]
  {
    hide LogOk, StartedFor, PoppedOk;
    var (n, e) := (|s.log|, s'.log[|s.log|]);
    forall i | 0 <= i < n && s'.log[i].Fired? && !EditedBetween(s'.log, s'.log[i].automation, i, n + 1)
      ensures s'.log[i].automation in s'.lastDue && s'.log[i].due <= s'.lastDue[s'.log[i].automation]
    {
      assert s'.log[i] == s.log[i];
      assert FiresBefore(s.log[i].due, s.log[i].trigger, s.popped[0]);
      EditedSince(s.log, [e], s.log[i].automation, i);
    }
  }

  lemma FiresStarted(s: Timeline, s': Timeline, automation: int, next: Instant)
    requires Inv(s) && Fires(s, s', automation, next)
    ensures forall a :: a in s'.lastDue ==> exists i :: StartedFor(s'.log, a, s'.lastDue[a], i)
  {
    var n := |s.log|;
    forall a | a in s'.lastDue ensures exists i :: StartedFor(s'.log, a, s'.lastDue[a], i) {
      if a == automation && s'.log[n].started {
        assert StartedFor(s'.log, a, s'.lastDue[a], n);
      } else {
        var i :| StartedFor(s.log, a, s'.lastDue[a], i);
        assert StartedFor(s'.log, a, s'.lastDue[a], i);
      }
    }
  }

  lemma FiresLog(s: Timeline, s': Timeline, automation: int, next: Instant)
    requires Inv(s) && Fires(s, s', automation, next)
    ensures LogOk(s'.log)
  {
    var n := |s.log|;
    var e := s'.log[n];
    if !e.started {
      var i :| StartedFor(s.log, automation, s.lastDue[automation], i);
    }
    DuplicatesFollowStill(s.log, [e]);
    forall i, j | 0 <= i < j < |s'.log| && s'.log[i].Fired? && s'.log[j].Fired? ensures InOrder(s'.log[i], s'.log[j]) {
      if j == n {
        assert FiresBefore(s.log[i].due, s.log[i].trigger, s.popped[0]);
      } else {
        assert InOrder(s.log[i], s.log[j]);
      }
    }
    forall i, j | 0 <= i < j < |s'.log| && s'.log[i].Fired? && s'.log[j].Fired? && s'.log[j].started
                  && s'.log[i].automation == s'.log[j].automation && s'.log[i].due == s'.log[j].due
      ensures EditedBetween(s'.log, s'.log[i].automation, i, j)
    {
      EditedStill(s.log, [e], s'.log[i].automation, i, j);
    }
  }

  lemma StepKeeps(s: Timeline, s': Timeline)
    requires Inv(s) && Step(s, s')
    ensures Inv(s')
  {
    hide Inv;
    if Pops(s, s') {
      PopsKeeps(s, s');
    } else if Passes(s, s') {
      PassesKeeps(s, s');
    } else if automation, next :| Fires(s, s', automation, next) {
      assert Inv(s') by {
        FiresKeeps(s, s', automation, next);
      }
    } else {
      var edited :| Arms(s, s', edited);
      ArmsKeeps(s, s', edited);
    }
  }

  lemma FiresKeeps(s: Timeline, s': Timeline, automation: int, next: Instant)
    requires Inv(s) && Fires(s, s', automation, next)
    ensures Inv(s')
  {
    hide PoppedOk, LogBeforePopped, LastDueOk, LogOk;
    FiresPopped(s, s', automation, next);
    FiresLastDue(s, s', automation, next);
    FiresLog(s, s', automation, next);
  }

  // ---------- Every history ----------

  /** After startup: nothing popped, triggers armed for later, and at most one run caught up for each automation. */
  ghost predicate Init(s: Timeline) {
    && s.popped == [] && s.horizon == s.clock
    && (forall key :: key in s.entries && key.kind.DueTrigger? ==> s.entries[key] > s.clock)
    && (forall i :: 0 <= i < |s.log| ==>
          && s.log[i].Fired? && s.log[i].started && s.log[i].due <= s.clock
          && s.log[i].automation in s.lastDue && s.lastDue[s.log[i].automation] == s.log[i].due)
    && (forall i, j ::
          0 <= i < j < |s.log| ==> s.log[i].automation != s.log[j].automation && s.log[i].trigger != s.log[j].trigger)
    && (forall a :: a in s.lastDue ==> exists i :: 0 <= i < |s.log| && s.log[i].automation == a)
  }

  ghost predicate History(states: seq<Timeline>) {
    && states != [] && Init(states[0])
    && forall k :: 0 <= k < |states| - 1 ==> Step(states[k], states[k + 1])
  }

  lemma InitInv(s: Timeline)
    requires Init(s)
    ensures Inv(s)
  {
    forall a | a in s.lastDue ensures exists i :: StartedFor(s.log, a, s.lastDue[a], i) {
      var i :| 0 <= i < |s.log| && s.log[i].automation == a;
      assert StartedFor(s.log, a, s.lastDue[a], i);
    }
  }

  lemma {:induction false} AlwaysInv(states: seq<Timeline>, k: nat)
    requires History(states) && k < |states|
    ensures Inv(states[k])
  {
    hide Inv, Init, Step;
    if k == 0 {
      InitInv(states[0]);
    } else {
      AlwaysInv(states, k - 1);
      StepKeeps(states[k - 1], states[k]);
    }
  }

  /**
   Due times fired for an automation never go backwards, and those of one trigger only go forwards,
   whatever is edited meanwhile.
   */
  lemma DuesInOrder(states: seq<Timeline>, k: nat, i: nat, j: nat)
    requires History(states) && k < |states|
    requires i < j < |states[k].log| && states[k].log[i].Fired? && states[k].log[j].Fired?
    ensures states[k].log[i].automation == states[k].log[j].automation ==> states[k].log[i].due <= states[k].log[j].due
    ensures states[k].log[i].trigger == states[k].log[j].trigger ==> states[k].log[i].due < states[k].log[j].due
  {
    AlwaysInv(states, k);
    assert InOrder(states[k].log[i], states[k].log[j]);
  }

  /**
   However many of an automation's triggers share a due time, they start one run between them,
   unless the automation is edited in between.
   */
  lemma OneRunPerDue(states: seq<Timeline>, k: nat, i: nat, j: nat)
    requires History(states) && k < |states| && i < j < |states[k].log|
    requires states[k].log[i].Fired? && states[k].log[j].Fired? && states[k].log[i].started && states[k].log[j].started
    requires states[k].log[i].automation == states[k].log[j].automation && states[k].log[i].due == states[k].log[j].due
    ensures EditedBetween(states[k].log, states[k].log[i].automation, i, j)
  {
    AlwaysInv(states, k);
  }

  /** And that one run is started: no fire is taken for a duplicate without a run for its due time. */
  lemma EveryDueStarted(states: seq<Timeline>, k: nat, j: nat) returns (i: nat)
    requires History(states) && k < |states| && j < |states[k].log| && states[k].log[j].Fired?
    ensures i <= j && StartedFor(states[k].log, states[k].log[j].automation, states[k].log[j].due, i)
  {
    AlwaysInv(states, k);
    var log := states[k].log;
    if log[j].started {
      i := j;
    } else {
      var n :| n < j && StartedFor(log, log[j].automation, log[j].due, n);
      i := n;
    }
  }
}
