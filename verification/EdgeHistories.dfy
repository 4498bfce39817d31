/**
 One reading trigger over time: readings, the scheduler's entry for its hold,
 due holds the scheduler has popped but not yet handed over, and its automation
 being switched off, broken or edited, which drops the edge, and armed again.
 */
module EdgeHistories {
  import opened Wrappers
  import opened Edges

  datatype Event =
    | Saw(reading: Reading, cause: Option<int>, at: Instant, action: EdgeAction)
    | HoldFired(due: Instant, cause: Option<int>, at: Instant)
    | Dropped

  /** seen is when the newest reading was noted; the worker notes the time before it takes the lock. */
  datatype State = State(
    armed: bool,
    edge: EdgeState,
    entry: Option<Instant>,
    popped: multiset<Instant>,
    clock: Instant,
    seen: Instant,
    log: seq<Event>)

  datatype Action =
    | Tick(clock: Instant)
    | See(reading: Reading, cause: Option<int>, at: Instant)
    | Pop
    | HandOver(due: Instant)
    | Drop
    | Arm

  predicate Enabled(s: State, a: Action) {
    match a
    case Tick(clock) => clock >= s.clock
    case See(_, _, at) => s.armed && s.seen <= at <= s.clock
    case Pop => s.entry.Some? && s.entry.value <= s.clock
    case HandOver(due) => due in s.popped
    case Drop => s.armed
    case Arm => !s.armed
  }

  function Apply(c: ReadingCondition, s: State, a: Action): State
    requires Enabled(s, a)
  {
    match a
    case Tick(clock) => s.(clock := clock)
    case See(reading, cause, at) =>
      var (edge, action) := Observed(s.edge, c, reading, at);
      s.(edge := if action.Hold? then edge.(holdCause := cause) else edge,
         entry := if action.Hold? then Some(edge.holdUntil) else if action.Release? then None else s.entry,
         seen := at,
         log := s.log + [Saw(reading, cause, at, action)])
    case Pop => s.(entry := None, popped := s.popped + multiset{s.entry.value})
    case HandOver(due) =>
      var (edge, elapsed) := Elapsed(s.edge, due);
      s.(edge := edge, popped := s.popped - multiset{due},
         log := if elapsed then s.log + [HoldFired(due, s.edge.holdCause, s.clock)] else s.log)
    // What has been popped already stays on its way.
    case Drop => s.(armed := false, edge := NEW_EDGE, entry := None, log := s.log + [Dropped])
    case Arm => s.(armed := true)
  }

  // ---------- What the log shows ----------

  predicate Fires(e: Event) {
    e.HoldFired? || (e.Saw? && e.action.Fire?)
  }

  /** A reading re-arms the trigger, or it is dropped, to start anew when it is armed again. */
  predicate Rearming(c: ReadingCondition, e: Event) {
    e.Dropped? || (e.Saw? && Rearms(c, e.reading))
  }

  predicate Usable(c: ReadingCondition, e: Event) {
    e.Saw? && Test(c, e.reading).ok
  }

  /** The i-th event fired, and nothing has re-armed the trigger since. */
  ghost predicate Spent(c: ReadingCondition, log: seq<Event>, i: nat) {
    && i < |log| && Fires(log[i])
    && forall j :: i < j < |log| ==> !Rearming(c, log[j])
  }

  /**
   The i-th event is a reading that met the condition, every usable reading since did too, and the
   trigger has not fired since, nor been dropped.
   */
  ghost predicate HeldSince(c: ReadingCondition, log: seq<Event>, i: nat) {
    && i < |log| && log[i].Saw? && Meets(c, log[i].reading)
    && forall j ::
         i < j < |log| ==> !Fires(log[j]) && !log[j].Dropped? && (Usable(c, log[j]) ==> Meets(c, log[j].reading))
  }

  ghost predicate RearmedBetween(c: ReadingCondition, log: seq<Event>, i: nat, j: nat) {
    exists k :: i < k < j <= |log| && Rearming(c, log[k])
  }

  /**
   A hold fires for a reading that has held ever since, no sooner than the hold after it, with that
   reading's cause.
   */
  ghost predicate HeldInFull(c: ReadingCondition, log: seq<Event>, k: nat)
    requires k < |log| && log[k].HoldFired?
  {
    exists i: nat :: i < k && HeldSince(c, log[..k], i)
                  && log[i].at + c.hold == log[k].due <= log[k].at && log[k].cause == log[i].cause
  }

  // ---------- The invariant ----------

  ghost predicate HoldBegan(c: ReadingCondition, s: State, i: nat) {
    HeldUnspent(c, s.log, i) && s.log[i].at + c.hold == s.edge.holdUntil && s.log[i].cause == s.edge.holdCause
  }

  /** Held since a reading that found the trigger not spent. */
  ghost predicate HeldUnspent(c: ReadingCondition, log: seq<Event>, i: nat) {
    HeldSince(c, log, i) && forall n: nat :: !Spent(c, log[..i], n)
  }

  ghost predicate EdgeOk(c: ReadingCondition, s: State) {
    && (!s.armed ==> s.edge == NEW_EDGE && s.entry == None)
    && !(s.edge.fired && s.edge.holding)
    && (s.edge.fired <==> exists i: nat :: Spent(c, s.log, i))
    && (s.edge.holding ==> c.hold > 0 && exists i: nat :: HoldBegan(c, s, i))
    && (c.hold > 0 && (exists i: nat :: HeldUnspent(c, s.log, i)) ==> s.edge.holding)
  }

  /** No hold is lost: its due is with the scheduler, or on its way from it. */
  ghost predicate HoldPending(s: State) {
    && (s.edge.holding ==> s.entry == Some(s.edge.holdUntil) || s.edge.holdUntil in s.popped)
    && forall due :: due in s.popped ==> due <= s.clock
  }

  ghost predicate LogOk(c: ReadingCondition, log: seq<Event>) {
    && (forall k :: 0 <= k < |log| && log[k].Saw? && log[k].action.Fire? ==> c.hold == 0 && Meets(c, log[k].reading))
    && (forall k :: 0 <= k < |log| && log[k].HoldFired? ==> c.hold > 0 && HeldInFull(c, log, k))
    && (forall i, j :: 0 <= i < j < |log| && Fires(log[i]) && Fires(log[j]) ==> RearmedBetween(c, log, i, j))
  }

  ghost predicate Inv(c: ReadingCondition, s: State) {
    EdgeOk(c, s) && HoldPending(s) && LogOk(c, s.log)
  }

  // ---------- Every step keeps it ----------

  /** One more event, which fires only if it may. */
  lemma LogGrows(c: ReadingCondition, log: seq<Event>, e: Event)
    requires LogOk(c, log)
    requires e.HoldFired? ==> c.hold > 0 && HeldInFull(c, log + [e], |log|)
    requires Fires(e) ==> forall i: nat :: !Spent(c, log, i)
    requires e.Saw? && e.action.Fire? ==> c.hold == 0 && Meets(c, e.reading)
    ensures LogOk(c, log + [e])
  {
    var log' := log + [e];
    forall k | 0 <= k < |log'| && log'[k].HoldFired? ensures HeldInFull(c, log', k) {
      if k < |log| {
        assert HeldInFull(c, log, k);
        assert log'[..k] == log[..k];
      }
    }
    forall i, j | 0 <= i < j < |log'| && Fires(log'[i]) && Fires(log'[j]) ensures RearmedBetween(c, log', i, j) {
      if j < |log| {
        assert RearmedBetween(c, log, i, j);
        var k :| i < k < j && Rearming(c, log[k]);
        assert Rearming(c, log'[k]);
      } else {
        assert !Spent(c, log, i);
        var k :| i < k < |log| && Rearming(c, log[k]);
        assert Rearming(c, log'[k]);
      }
    }
  }

  /** What a further event does to whether the trigger is spent, and to a hold. */
  lemma SpentAfter(c: ReadingCondition, log: seq<Event>, e: Event)
    ensures (exists i: nat :: Spent(c, log + [e], i)) <==>
              Fires(e) || (!Rearming(c, e) && exists i: nat :: Spent(c, log, i))
  {
    var log' := log + [e];
    if Fires(e) {
      assert Spent(c, log', |log|);
    } else if !Rearming(c, e) && exists i: nat :: Spent(c, log, i) {
      var i: nat :| Spent(c, log, i);
      assert Spent(c, log', i);
    }
    if i: nat :| Spent(c, log', i) && i < |log| {
      assert log'[|log|] == e;
      assert Spent(c, log, i) by {
        assert forall j :: i < j < |log| ==> log'[j] == log[j];
      }
    }
  }

  lemma HeldAfter(c: ReadingCondition, log: seq<Event>, e: Event, i: nat)
    requires HeldUnspent(c, log, i) && !Fires(e) && !e.Dropped? && (Usable(c, e) ==> Meets(c, e.reading))
    ensures HeldUnspent(c, log + [e], i)
  {
    assert (log + [e])[..i] == log[..i];
  }

  /** A reading that has held unspent until now did so before, or it is the newest. */
  lemma HeldBefore(c: ReadingCondition, log: seq<Event>, e: Event)
    ensures (exists i: nat :: HeldUnspent(c, log + [e], i)) ==>
              || (e.Saw? && Meets(c, e.reading) && !exists n: nat :: Spent(c, log, n))
              || (!Fires(e) && !e.Dropped? && (Usable(c, e) ==> Meets(c, e.reading))
                  && exists i: nat :: HeldUnspent(c, log, i))
  {
    var log' := log + [e];
    if i: nat :| HeldUnspent(c, log', i) {
      if i == |log| {
        assert log'[..i] == log && log'[i] == e;
      } else {
        assert log'[..i] == log[..i] && log'[|log|] == e;
        assert forall j :: 0 <= j < |log| ==> log'[j] == log[j];
        assert HeldUnspent(c, log, i);
      }
    }
  }

  lemma BeginsHold(c: ReadingCondition, log: seq<Event>, e: Event)
    requires e.Saw? && Meets(c, e.reading) && !exists n: nat :: Spent(c, log, n)
    ensures HeldUnspent(c, log + [e], |log|)
  {
    assert (log + [e])[..|log|] == log;
  }

  lemma SeeKeeps(c: ReadingCondition, s: State, a: Action)
    requires Inv(c, s) && a.See? && Enabled(s, a)
    ensures Inv(c, Apply(c, s, a))
  {
    var s' := Apply(c, s, a);
    var e := s'.log[|s.log|];
    SpentAfter(c, s.log, e);
    HeldBefore(c, s.log, e);
    LogGrows(c, s.log, e);
    hide LogOk, Test, Spent, HeldUnspent, HeldInFull;
    if s'.edge.holding {
      if s.edge.holding {
        var i: nat :| HoldBegan(c, s, i);
        HeldAfter(c, s.log, e, i);
        assert HoldBegan(c, s', i);
      } else {
        BeginsHold(c, s.log, e);
        assert HoldBegan(c, s', |s.log|);
      }
    }
  }

  lemma HandOverKeeps(c: ReadingCondition, s: State, due: Instant)
    requires Inv(c, s) && due in s.popped
    ensures Inv(c, Apply(c, s, HandOver(due)))
  {
    var s' := Apply(c, s, HandOver(due));
    if Elapsed(s.edge, due).1 {
      var e := HoldFired(due, s.edge.holdCause, s.clock);
      assert s'.log == s.log + [e];
      SpentAfter(c, s.log, e);
      HeldBefore(c, s.log, e);
      var i: nat :| HoldBegan(c, s, i);
      assert s'.log[..|s.log|] == s.log;
      LogGrows(c, s.log, e);
    } else if s.edge.holding {
      var i: nat :| HoldBegan(c, s, i);
      assert HoldBegan(c, s', i);
    }
  }

  lemma DropKeeps(c: ReadingCondition, s: State)
    requires Inv(c, s) && s.armed
    ensures Inv(c, Apply(c, s, Drop))
  {
    SpentAfter(c, s.log, Dropped);
    HeldBefore(c, s.log, Dropped);
    LogGrows(c, s.log, Dropped);
  }

  lemma WaitKeeps(c: ReadingCondition, s: State, a: Action)
    requires Inv(c, s) && Enabled(s, a) && (a.Tick? || a.Pop? || a.Arm?)
    ensures Inv(c, Apply(c, s, a))
  {
    var s' := Apply(c, s, a);
    forall i: nat | HoldBegan(c, s, i) ensures HoldBegan(c, s', i) {}
  }

  lemma StepKeeps(c: ReadingCondition, s: State, a: Action)
    requires Inv(c, s) && Enabled(s, a)
    ensures Inv(c, Apply(c, s, a))
  {
    match a {
      case See(_, _, _) => SeeKeeps(c, s, a);
      case HandOver(due) => HandOverKeeps(c, s, due);
      case Drop => DropKeeps(c, s);
      case _ => WaitKeeps(c, s, a);
    }
  }

  // ---------- Every history ----------

  ghost predicate Init(s: State) {
    s.edge == NEW_EDGE && s.entry == None && s.popped == multiset{} && s.log == [] && s.seen <= s.clock
  }

  ghost predicate History(c: ReadingCondition, states: seq<State>, actions: seq<Action>) {
    && |states| == |actions| + 1
    && Init(states[0])
    && forall i ::
         0 <= i < |actions| ==> Enabled(states[i], actions[i]) && states[i + 1] == Apply(c, states[i], actions[i])
  }

  lemma {:induction false} AlwaysInv(c: ReadingCondition, states: seq<State>, actions: seq<Action>, k: nat)
    requires History(c, states, actions) && k < |states|
    ensures Inv(c, states[k])
  {
    if k > 0 {
      AlwaysInv(c, states, actions, k - 1);
      StepKeeps(c, states[k - 1], actions[k - 1]);
    }
  }

  /** Without a hold only a reading that meets the condition fires, and with one only the hold does. */
  lemma OnlyMetReadingsFire(c: ReadingCondition, states: seq<State>, actions: seq<Action>, k: nat, n: nat)
    requires History(c, states, actions) && k < |states|
    requires n < |states[k].log| && Fires(states[k].log[n])
    ensures var e := states[k].log[n];
            if c.hold == 0 then e.Saw? && Meets(c, e.reading) && Crosses(c, e.reading) else e.HoldFired?
  {
    AlwaysInv(c, states, actions, k);
    forall e: Event | e.Saw? && Meets(c, e.reading) ensures Crosses(c, e.reading) {
      TestTells(c, e.reading);
    }
  }

  lemma HoldsInFull(c: ReadingCondition, states: seq<State>, actions: seq<Action>, k: nat, n: nat)
    requires History(c, states, actions) && k < |states|
    requires n < |states[k].log| && states[k].log[n].HoldFired?
    ensures HeldInFull(c, states[k].log, n)
  {
    AlwaysInv(c, states, actions, k);
  }

  /**
   Between two fires there is a re-arming reading, unless the trigger was dropped in
   between. It is no reading that could have fired unless the margin is under the tolerance.
   */
  lemma RearmsBetweenFires(c: ReadingCondition, states: seq<State>, actions: seq<Action>, k: nat, i: nat, j: nat)
    returns (n: nat)
    requires History(c, states, actions) && k < |states|
    requires i < j < |states[k].log| && Fires(states[k].log[i]) && Fires(states[k].log[j])
    ensures i < n < j && Rearming(c, states[k].log[n])
    ensures states[k].log[n].Saw? && (c.operator.Becomes? || c.margin >= REARM_TOLERANCE) ==>
              !Meets(c, states[k].log[n].reading)
    ensures (forall m :: 0 <= m < k ==> !actions[m].Drop?) ==> states[k].log[n].Saw?
    ensures states[k].log[n].Saw? ==> GoesBack(c, states[k].log[n].reading)
  {
    AlwaysInv(c, states, actions, k);
    var log := states[k].log;
    assert RearmedBetween(c, log, i, j);
    n :| i < n < j && Rearming(c, log[n]);
    MarginSeparates(c);
    if log[n].Saw? {
      TestTells(c, log[n].reading);
    }
    if forall m :: 0 <= m < k ==> !actions[m].Drop? {
      OnlyDropsAreLogged(c, states, actions, k);
    }
  }

  lemma {:induction false} OnlyDropsAreLogged(c: ReadingCondition, states: seq<State>, actions: seq<Action>, k: nat)
    requires History(c, states, actions) && k < |states| && forall m :: 0 <= m < k ==> !actions[m].Drop?
    ensures forall n :: 0 <= n < |states[k].log| ==> !states[k].log[n].Dropped?
  {
    if k > 0 {
      OnlyDropsAreLogged(c, states, actions, k - 1);
      assert !actions[k - 1].Drop? && states[k] == Apply(c, states[k - 1], actions[k - 1]);
    }
  }

  /**
   An armed trigger answers the first reading that meets its condition: it
   fires at once, or holds with its due left to the scheduler. A spent one answers nothing.
   */
  lemma ArmedTriggerAnswers(c: ReadingCondition, states: seq<State>, actions: seq<Action>, k: nat)
    requires History(c, states, actions) && k < |actions| && actions[k].See? && Meets(c, actions[k].reading)
    ensures var (s, s') := (states[k], states[k + 1]);
            var spent := exists i: nat :: Spent(c, s.log, i);
            && (spent ==> !Fires(s'.log[|s'.log| - 1]) && !s'.edge.holding)
            && (!spent && c.hold == 0 ==> Fires(s'.log[|s'.log| - 1]))
            && (!spent && c.hold > 0 ==> s'.edge.holding && HoldPending(s'))
  {
    AlwaysInv(c, states, actions, k);
    AlwaysInv(c, states, actions, k + 1);
  }

  /**
   The trigger is spent exactly since a fire that nothing has re-armed it from, and it
   holds exactly while a reading has held that met the condition and found it not
   spent: readings that lack what the condition is about change neither.
   */
  lemma HoldsExactlyWhile(c: ReadingCondition, states: seq<State>, actions: seq<Action>, k: nat)
    requires History(c, states, actions) && k < |states|
    ensures var (edge, log) := (states[k].edge, states[k].log);
            && (edge.fired <==> exists i: nat :: Spent(c, log, i))
            && (edge.holding <==> c.hold > 0 && exists i: nat :: HeldUnspent(c, log, i))
  {
    AlwaysInv(c, states, actions, k);
    var (edge, log) := (states[k].edge, states[k].log);
    if edge.holding {
      var i: nat :| HoldBegan(c, states[k], i);
      assert HeldUnspent(c, log, i);
    }
  }

  /** A standing hold is never lost: its due is with the scheduler or on its way, and handing it over fires it. */
  lemma NoHoldIsLost(c: ReadingCondition, states: seq<State>, actions: seq<Action>, k: nat)
    requires History(c, states, actions) && k < |states| && states[k].edge.holding
    ensures var (s, due) := (states[k], states[k].edge.holdUntil);
            && (s.entry == Some(due) || due in s.popped)
            && (exists i: nat :: HoldBegan(c, s, i))
            && (due in s.popped ==>
                  Apply(c, s, HandOver(due)).log == s.log + [HoldFired(due, s.edge.holdCause, s.clock)])
  {
    AlwaysInv(c, states, actions, k);
  }
}
