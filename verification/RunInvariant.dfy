/**
 What every step of the run protocol keeps: the store's invariant, one driver
 for each active run, and what each driver knows of its run.
 */
module RunInvariant {
  import opened Wrappers
  import opened RunTable
  import opened RunProtocol

  // ---------- The invariant ----------

  /** A linked command belongs to a set step of its run, sent no earlier than that step and before any later one. */
  ghost predicate CommandOk(c: Command, t: Table, clock: Instant) {
    && c.sentAt <= clock
    && (c.run.Some? ==>
      && c.run.value in t.runs
      && var run := t.runs[c.run.value];
      && 1 <= c.position <= |run.rows| <= |run.steps|
      && run.steps[c.position - 1].Set?
      && c.sensor == run.steps[c.position - 1].sensor && c.property == run.steps[c.position - 1].property
      && c.value == run.steps[c.position - 1].value
      && run.rows[c.position - 1].startedAt <= c.sentAt
      && (c.position < |run.rows| ==> c.sentAt < run.rows[c.position].startedAt)
      && (Active(run.status) && run.rows[c.position - 1].finishedAt.Some? ==>
            c.sentAt <= run.rows[c.position - 1].finishedAt.value))
  }

  ghost predicate HasCommand(commands: seq<Command>, run: int, position: nat) {
    exists i :: 0 <= i < |commands| && commands[i].run == Some(run) && commands[i].position == position
  }

  ghost predicate AtMostOneCommandPerStep(commands: seq<Command>) {
    forall i, j | 0 <= i < |commands| && 0 <= j < |commands| ::
      (commands[i].run.Some? && commands[i].run == commands[j].run && commands[i].position == commands[j].position) ==>
        i == j
  }

  /** Later rows of a run started no earlier. */
  ghost predicate RowsInTime(run: Run, clock: Instant) {
    forall i, j :: 0 <= i <= j < |run.rows| ==> run.rows[i].startedAt <= run.rows[j].startedAt <= clock
  }

  /** The run's newest step sets something, and nobody but a cancel has settled it. */
  ghost predicate OpenAt(run: Run, p: nat) {
    && 1 <= p == |run.rows| <= |run.steps| && run.steps[p - 1].Set?
    && (run.rows[p - 1].outcome.StepRunning? || run.rows[p - 1].outcome.StepCancelled?)
  }

  /** Nor has a step that a copy of the run shows as running been settled since. */
  ghost predicate StillOpen(copy: Run, run: Run) {
    && |copy.rows| == |run.rows|
    && (copy.rows != [] && copy.rows[|copy.rows| - 1].outcome.StepRunning? ==>
          var outcome := run.rows[|run.rows| - 1].outcome;
          outcome.StepRunning? || outcome.StepCancelled?)
  }

  /** What holds of a driver of a run that is still in the table, cancelled or not. */
  ghost predicate PlacedOk(th: Thread, run: Run, commands: seq<Command>) {
    && var n := |run.rows|;
    && n <= |run.steps|
    && (!th.pc.Loaded? && !th.pc.Resuming? && !th.pc.Reading? ==> th.steps == run.steps)
    && match th.pc
       case Loaded(s) =>
         RunOk(s) && Active(s.status) && RunEvolves(s, run) && |s.rows| == n && th.steps == run.steps
         && StillOpen(s, run)
       case Resuming => true
       case Reading => AllSucceeded(run.rows)
       case Begin(s) =>
         && RunOk(s) && RunEvolves(s, run) && |s.rows| == n && (s.status.Running? || AllSucceeded(s.rows))
         && StillOpen(s, run)
       case Settling(p, since) => OpenAt(run, p) && run.rows[p - 1].startedAt == since
       case AtStep(p) => p == n + 1
       case Sending(p) => OpenAt(run, p) && !HasCommand(commands, th.run, p)
       case Awaiting(p, c) => OpenAt(run, p)
       case Finishing(p, _, _) => OpenAt(run, p)
       case Failing(p) => 1 <= p == n
       case Ending => true
       case Rescheduling(_) => true
  }

  ghost predicate LastRowIs(run: Run, outcome: StepOutcome) {
    run.rows != [] && run.rows[|run.rows| - 1].outcome == outcome
  }

  /** What also holds while the run is active: the driver knows exactly where the store has it. */
  ghost predicate DrivingOk(th: Thread, run: Run) {
    match th.pc
    case Loaded(s) => s == run
    case Resuming => run.status.Waiting?
    case Reading => run.status.Running? && AllSucceeded(run.rows)
    case Begin(s) => run.status.Running? && s == run
    case Settling(_, _) => run.status.Running? && LastRowIs(run, StepRunning)
    case AtStep(_) => run.status.Running? && AllSucceeded(run.rows)
    case Sending(_) => run.status.Running? && LastRowIs(run, StepRunning)
    case Awaiting(_, _) => run.status.Running? && LastRowIs(run, StepRunning)
    case Finishing(_, _, _) => run.status.Running? && LastRowIs(run, StepRunning)
    case Failing(_) => run.status.Running? && LastRowIs(run, StepFailed)
    case Ending => run.status.Running? && |run.rows| == |run.steps| && AllSucceeded(run.rows)
    case Rescheduling(at) => run.status.Waiting? && run.resumeAt == Some(at)
  }

  /** A command an executor waits for or reports is the one its own step sent. */
  ghost predicate OwnCommand(th: Thread, commands: seq<Command>) {
    var named := match th.pc
                 case Awaiting(_, c) => Some(c)
                 case Finishing(_, _, c) => c
                 case _ => None;
    named.Some? ==>
      && 0 <= named.value < |commands|
      && (commands[named.value].run.Some? ==>
            commands[named.value].run == Some(th.run) && commands[named.value].position == th.pc.position)
  }

  /** What holds of a driver's own copy of the run, even once the run is deleted. */
  ghost predicate CopyOk(th: Thread) {
    match th.pc
    case Loaded(s) => RunOk(s) && th.steps == s.steps
    case Begin(s) => RunOk(s) && th.steps == s.steps
    case Settling(p, _) => p <= |th.steps|
    case Sending(p) => p <= |th.steps|
    case Awaiting(p, _) => p <= |th.steps|
    case Finishing(p, _, _) => p <= |th.steps|
    case _ => true
  }

  ghost predicate ThreadOk(th: Thread, t: Table, commands: seq<Command>) {
    && th.run < t.nextId
    && CopyOk(th)
    && OwnCommand(th, commands)
    && (th.run in t.runs ==> PlacedOk(th, t.runs[th.run], commands))
    && (IsActive(t, th.run) ==> DrivingOk(th, t.runs[th.run]))
  }

  ghost predicate Drives(h: Hub, tid: nat, run: int) {
    tid in h.threads && h.threads[tid].run == run
  }

  /** No run has two drivers, and while the hub is up no active run has none. */
  ghost predicate DriversOk(h: Hub) {
    && (forall i, j :: i in h.threads && j in h.threads && h.threads[i].run == h.threads[j].run ==> i == j)
    && (forall i :: i in h.threads ==> h.threads[i].run !in h.resumes)
    && (forall run :: run in h.resumes ==> run < h.table.nextId)
    && (forall run :: run in h.resumes && IsActive(h.table, run) ==>
          h.table.runs[run].status.Waiting? && h.table.runs[run].resumeAt == Some(h.resumes[run]))
    && (h.up ==> forall run :: IsActive(h.table, run) ==> run in h.resumes || exists tid :: Drives(h, tid, run))
    && (!h.up ==> h.threads == map[] && h.resumes == map[])
  }

  /** A run is only resumed once its time has come. */
  ghost predicate ResumesDue(h: Hub) {
    forall tid :: tid in h.threads && h.threads[tid].pc.Resuming? && IsActive(h.table, h.threads[tid].run) ==>
      h.table.runs[h.threads[tid].run].resumeAt.Some? && h.table.runs[h.threads[tid].run].resumeAt.value <= h.clock
  }

  ghost predicate Inv(h: Hub) {
    && TableOk(h.table)
    && h.table.nextId > 0 && (forall id :: id in h.table.runs ==> id > 0)
    && (forall id :: id in h.table.runs ==> RowsInTime(h.table.runs[id], h.clock))
    && (forall i :: 0 <= i < |h.commands| ==> CommandOk(h.commands[i], h.table, h.clock))
    && AtMostOneCommandPerStep(h.commands)
    && (forall tid :: tid in h.threads ==> ThreadOk(h.threads[tid], h.table, h.commands))
    && DriversOk(h)
    && ResumesDue(h)
  }

  // ---------- One driver's step ----------

  lemma ThreadFacts(h: Hub, tid: nat)
    requires Inv(h) && tid in h.threads
    ensures ThreadOk(h.threads[tid], h.table, h.commands)
  {
  }

  lemma ResumeFacts(h: Hub, tid: nat)
    requires Inv(h) && tid in h.threads && h.threads[tid].pc.Resuming? && IsActive(h.table, h.threads[tid].run)
    ensures h.table.runs[h.threads[tid].run].resumeAt.Some?
            && h.table.runs[h.threads[tid].run].resumeAt.value <= h.clock
  {
  }

  lemma TableFacts(h: Hub)
    requires Inv(h)
    ensures TableOk(h.table)
  {
  }

  lemma RunFacts(h: Hub, id: int)
    requires Inv(h) && id in h.table.runs
    ensures RunOk(h.table.runs[id]) && RowsInTime(h.table.runs[id], h.clock)
  {
  }

  /** Commands keep their place; at most they lose their run. */
  ghost predicate CommandsKept(a: seq<Command>, b: seq<Command>) {
    && |a| <= |b|
    && forall i :: 0 <= i < |a| ==> b[i].position == a[i].position && (b[i].run == a[i].run || b[i].run.None?)
  }

  /** A driver only minds its own run, and commands sent for it. */
  lemma ThreadFrame(th: Thread, t: Table, commands: seq<Command>, t': Table, commands': seq<Command>)
    requires ThreadOk(th, t, commands)
    requires t.nextId <= t'.nextId
    requires th.run in t'.runs ==> th.run in t.runs && t'.runs[th.run] == t.runs[th.run]
    requires CommandsKept(commands, commands')
    requires forall i :: |commands| <= i < |commands'| ==> commands'[i].run != Some(th.run)
    ensures ThreadOk(th, t', commands')
  {
  }

  /**
   What a driver must show of its own run for its step to keep the invariant.
   It moves on to pc, or hands the run over and exits when pc is None.
   */
  ghost predicate OwnStep(h: Hub, h': Hub, tid: nat, next: Option<Thread>) {
    && tid in h.threads
    && var r := h.threads[tid].run;
    && h'.clock == h.clock && h.up && h'.up
    && TableOk(h'.table) && h'.table.nextId == h.table.nextId && h'.table.runs.Keys == h.table.runs.Keys
    && (forall id :: id in h.table.runs && id != r ==> h'.table.runs[id] == h.table.runs[id])
    && (r in h.table.runs ==> RowsInTime(h'.table.runs[r], h.clock))
    && (IsActive(h'.table, r) ==> IsActive(h.table, r))
    && h.commands <= h'.commands
    && (forall i :: |h.commands| <= i < |h'.commands| ==> h'.commands[i].run == Some(r))
    && (forall i ::
          0 <= i < |h'.commands| && h'.commands[i].run == Some(r) ==> CommandOk(h'.commands[i], h'.table, h.clock))
    && AtMostOneCommandPerStep(h'.commands)
    && match next
       case Some(th) =>
         && h'.threads == h.threads[tid := th] && h'.resumes == h.resumes
         && th.run == r && ThreadOk(th, h'.table, h'.commands)
         && (th.pc.Resuming? && IsActive(h'.table, r) ==>
               h'.table.runs[r].resumeAt.Some? && h'.table.runs[r].resumeAt.value <= h.clock)
       case None =>
         && h'.threads == h.threads - {tid}
         && (h'.resumes == h.resumes || (r in h'.resumes && h'.resumes == h.resumes[r := h'.resumes[r]]))
         && (IsActive(h'.table, r) ==>
               r in h'.resumes && h'.table.runs[r].status.Waiting? && h'.table.runs[r].resumeAt == Some(h'.resumes[r]))
  }

  lemma OwnStepCommands(h: Hub, h': Hub, tid: nat, next: Option<Thread>)
    requires Inv(h) && OwnStep(h, h', tid, next)
    ensures forall i :: 0 <= i < |h'.commands| ==> CommandOk(h'.commands[i], h'.table, h'.clock)
  {
    var r := h.threads[tid].run;
    forall i | 0 <= i < |h'.commands| ensures CommandOk(h'.commands[i], h'.table, h'.clock) {
      if h'.commands[i].run != Some(r) {
        assert i < |h.commands| && h'.commands[i] == h.commands[i];
        assert CommandOk(h.commands[i], h.table, h.clock);
        match h.commands[i].run {
          case None =>
          case Some(id) => assert id != r && h'.table.runs[id] == h.table.runs[id];
        }
      }
    }
  }

  lemma OwnStepThreads(h: Hub, h': Hub, tid: nat, next: Option<Thread>)
    requires Inv(h) && OwnStep(h, h', tid, next)
    ensures forall i :: i in h'.threads ==> ThreadOk(h'.threads[i], h'.table, h'.commands)
  {
    forall i | i in h'.threads ensures ThreadOk(h'.threads[i], h'.table, h'.commands) {
      if i != tid {
        assert h.threads[i].run != h.threads[tid].run;
        ThreadFrame(h.threads[i], h.table, h.commands, h'.table, h'.commands);
      }
    }
  }

  lemma OwnStepDrivers(h: Hub, h': Hub, tid: nat, r: int, exits: bool)
    requires DriversOk(h) && h.up && h'.up && tid in h.threads && h.threads[tid].run == r
    requires h'.table.nextId == h.table.nextId && h'.table.runs.Keys == h.table.runs.Keys
    requires forall id :: id in h.table.runs && id != r ==> h'.table.runs[id] == h.table.runs[id]
    requires IsActive(h'.table, r) ==> IsActive(h.table, r)
    requires r < h.table.nextId
    requires if exits then
               h'.threads == h.threads - {tid}
             else
               && tid in h'.threads && h'.threads[tid].run == r
               && h'.threads == h.threads[tid := h'.threads[tid]] && h'.resumes == h.resumes
    requires exits ==>
               && (h'.resumes == h.resumes || (r in h'.resumes && h'.resumes == h.resumes[r := h'.resumes[r]]))
               && (IsActive(h'.table, r) ==>
                     r in h'.resumes && h'.table.runs[r].status.Waiting?
                     && h'.table.runs[r].resumeAt == Some(h'.resumes[r]))
    ensures DriversOk(h')
  {
    forall run | IsActive(h'.table, run) ensures run in h'.resumes || exists i :: Drives(h', i, run) {
      assert IsActive(h.table, run);
      if run !in h.resumes {
        var i :| Drives(h, i, run);
        assert i != tid ==> Drives(h', i, run);
        assert run == r && !exits ==> Drives(h', tid, run);
      }
    }
  }

  lemma OwnStepResumes(h: Hub, h': Hub, tid: nat, next: Option<Thread>)
    requires Inv(h) && OwnStep(h, h', tid, next)
    ensures ResumesDue(h')
  {
    forall i | i in h'.threads && h'.threads[i].pc.Resuming? && IsActive(h'.table, h'.threads[i].run)
      ensures h'.table.runs[h'.threads[i].run].resumeAt.Some?
              && h'.table.runs[h'.threads[i].run].resumeAt.value <= h'.clock
    {
      if i != tid {
        assert h.threads[i].run != h.threads[tid].run;
      }
    }
  }

  lemma OwnStepKeeps(h: Hub, h': Hub, tid: nat, next: Option<Thread>)
    requires Inv(h) && OwnStep(h, h', tid, next)
    ensures Inv(h')
  {
    OwnStepCommands(h, h', tid, next);
    OwnStepThreads(h, h', tid, next);
    OwnStepDrivers(h, h', tid, h.threads[tid].run, next.None?);
    OwnStepResumes(h, h', tid, next);
    forall id | id in h'.table.runs ensures RowsInTime(h'.table.runs[id], h'.clock) {
      assert id in h.table.runs;
    }
  }

  /**
   The run's row after a driver's transaction: it is a legal next state, no row
   finishes in the past, and a new row starts now, after all before it finished.
   */
  ghost predicate NextRow(run: Run, after: Run, clock: Instant) {
    && RunOk(after) && RunEvolves(run, after) && (Active(after.status) ==> Active(run.status))
    && (forall i | 0 <= i < |run.rows| :: run.rows[i].finishedAt.None? && after.rows[i].finishedAt.Some? ==>
                                            clock <= after.rows[i].finishedAt.value)
    && (|after.rows| > |run.rows| ==>
          && |after.rows| == |run.rows| + 1 && after.rows[|run.rows|].startedAt == clock
          && AllSucceeded(run.rows)
          && forall i | 0 <= i < |run.rows| :: run.rows[i].finishedAt.Some? ==> run.rows[i].finishedAt.value < clock)
  }

  lemma CommandFollows(c: Command, t: Table, clock: Instant, r: int, after: Run)
    requires CommandOk(c, t, clock) && c.run == Some(r) && RunOk(t.runs[r]) && NextRow(t.runs[r], after, clock)
    ensures CommandOk(c, t.(runs := t.runs[r := after]), clock)
  {
    var run := t.runs[r];
    assert RowEvolves(run.rows[c.position - 1], after.rows[c.position - 1]);
    if c.position < |run.rows| {
      assert RowEvolves(run.rows[c.position], after.rows[c.position]);
    } else if |after.rows| > |run.rows| {
      assert run.rows[c.position - 1].finishedAt.Some?;
    }
  }

  lemma NextRowInTime(run: Run, after: Run, clock: Instant)
    requires RowsInTime(run, clock) && NextRow(run, after, clock)
    ensures RowsInTime(after, clock)
  {
    assert forall i :: 0 <= i < |run.rows| ==> RowEvolves(run.rows[i], after.rows[i]);
  }

  /** A driver's transaction on its own run keeps the invariant. */
  lemma StoreStepKeeps(h: Hub, tid: nat, after: Run, next: Option<Thread>)
    requires Inv(h) && h.up && tid in h.threads && h.threads[tid].run in h.table.runs
    requires NextRow(h.table.runs[h.threads[tid].run], after, h.clock)
    requires next.Some? ==>
               && next.value.run == h.threads[tid].run && !next.value.pc.Resuming?
               && ThreadOk(next.value, h.table.(runs := h.table.runs[h.threads[tid].run := after]), h.commands)
    requires next.None? ==> !Active(after.status)
    ensures var table := h.table.(runs := h.table.runs[h.threads[tid].run := after]);
            && Evolves(h.table, table)
            && Inv(h.(table := table,
                      threads := if next.Some? then h.threads[tid := next.value] else h.threads - {tid}))
  {
    var r := h.threads[tid].run;
    var run := h.table.runs[r];
    var table := h.table.(runs := h.table.runs[r := after]);
    UpdateKeeps(h.table, r, after);
    forall i | 0 <= i < |h.commands| && h.commands[i].run == Some(r) ensures CommandOk(h.commands[i], table, h.clock) {
      CommandFollows(h.commands[i], h.table, h.clock, r, after);
    }
    NextRowInTime(run, after, h.clock);
    OwnStepKeeps(h, h.(table := table,
                       threads := if next.Some? then h.threads[tid := next.value] else h.threads - {tid}), tid, next);
  }

  /** Nothing in the store or the log changes: the driver only moves its own program counter. */
  lemma MoveKeeps(h: Hub, tid: nat, th: Thread)
    requires Inv(h) && h.up && tid in h.threads && th.run == h.threads[tid].run
    requires ThreadOk(th, h.table, h.commands)
    requires th.pc.Resuming? && IsActive(h.table, th.run) ==>
               h.table.runs[th.run].resumeAt.Some? && h.table.runs[th.run].resumeAt.value <= h.clock
    ensures Inv(h.(threads := h.threads[tid := th]))
  {
    OwnStepKeeps(h, h.(threads := h.threads[tid := th]), tid, Some(th));
  }

  lemma ExitKeeps(h: Hub, tid: nat)
    requires Inv(h) && h.up && tid in h.threads && !IsActive(h.table, h.threads[tid].run)
    ensures Inv(Exit(h, tid))
  {
    OwnStepKeeps(h, Exit(h, tid), tid, None);
  }

  lemma HandOverKeeps(h: Hub, tid: nat, at: Instant)
    requires Inv(h) && h.up && tid in h.threads
    requires IsActive(h.table, h.threads[tid].run) ==>
               h.table.runs[h.threads[tid].run].status.Waiting? && h.table.runs[h.threads[tid].run].resumeAt == Some(at)
    ensures Inv(HandOver(h, tid, at))
  {
    OwnStepKeeps(h, HandOver(h, tid, at), tid, None);
  }

  lemma LaunchKeeps(h: Hub, tid: nat)
    requires Inv(h) && h.up && tid in h.threads && h.threads[tid].pc.Loaded?
    ensures Inv(Launch(h, tid))
  {
    hide Inv;
    var th := h.threads[tid];
    var s := th.pc.snapshot;
    ThreadFacts(h, tid);
    if s.status.Waiting? && s.resumeAt.Some? && s.resumeAt.value > h.clock {
      HandOverKeeps(h, tid, s.resumeAt.value);
    } else if s.status.Waiting? {
      MoveKeeps(h, tid, th.(pc := Resuming));
    } else {
      MoveKeeps(h, tid, th.(pc := Begin(s)));
    }
  }

  lemma ResumeKeeps(h: Hub, tid: nat)
    requires Inv(h) && h.up && tid in h.threads && h.threads[tid].pc.Resuming?
    ensures Inv(Resume(h, tid)) && Evolves(h.table, Resume(h, tid).table)
  {
    hide Inv;
    var th := h.threads[tid];
    ThreadFacts(h, tid);
    if ResumeRun(h.table, th.run, h.clock).None? {
      ExitKeeps(h, tid);
    } else {
      RunFacts(h, th.run);
      ResumeFacts(h, tid);
      ResumedRunKeeps(h.table.runs[th.run], h.clock);
      StoreStepKeeps(h, tid, ResumedRun(h.table.runs[th.run], h.clock), Some(th.(pc := Reading)));
    }
  }

  lemma ReadBackKeeps(h: Hub, tid: nat)
    requires Inv(h) && h.up && tid in h.threads && h.threads[tid].pc.Reading?
    ensures Inv(ReadBack(h, tid))
  {
    hide Inv;
    var th := h.threads[tid];
    ThreadFacts(h, tid);
    if th.run in h.table.runs {
      RunFacts(h, th.run);
      MoveKeeps(h, tid, Thread(th.run, h.table.runs[th.run].steps, Begin(h.table.runs[th.run])));
    } else {
      ExitKeeps(h, tid);
    }
  }

  /** A copy's current row is its last one, if it has any. */
  lemma CurrentRowIsLast(run: Run)
    requires RunOk(run)
    ensures CurrentRow(run) == if run.rows == [] then None else Some(run.rows[|run.rows| - 1])
  {
    if run.rows != [] {
      assert run.rows[|run.rows| - 1].position == run.currentStep;
    }
  }

  lemma EnterKeeps(h: Hub, tid: nat)
    requires Inv(h) && h.up && tid in h.threads && h.threads[tid].pc.Begin?
    ensures Inv(Goto(h, tid, Enter(h.threads[tid].pc.snapshot)))
  {
    hide Inv;
    var th := h.threads[tid];
    var s := th.pc.snapshot;
    ThreadFacts(h, tid);
    CurrentRowIsLast(s);
    if th.run in h.table.runs {
      if s.rows != [] {
        assert RowEvolves(s.rows[|s.rows| - 1], h.table.runs[th.run].rows[|s.rows| - 1]);
      }
    }
    MoveKeeps(h, tid, th.(pc := Enter(s)));
  }

  /**
   An interrupted step finds its own command if it sent one, and only then:
   those of earlier steps were sent before it started.
   */
  lemma LookupFindsOwnCommand(h: Hub, run: int, position: Position)
    requires Inv(h) && run in h.table.runs && position == |h.table.runs[run].rows|
             && h.table.runs[run].steps[position - 1].Set?
    ensures var found :=
              LatestRunCommand(h.commands, run, h.table.runs[run].steps[position - 1],
                               h.table.runs[run].rows[position - 1].startedAt);
            && (found.Some? ==>
                  h.commands[found.value].run == Some(run) && h.commands[found.value].position == position)
            && (found.None? <==> !HasCommand(h.commands, run, position))
  {
    var r := h.table.runs[run];
    var found := LatestRunCommand(h.commands, run, r.steps[position - 1], r.rows[position - 1].startedAt);
    if found.Some? {
      var c := h.commands[found.value];
      assert CommandOk(c, h.table, h.clock);
      assert RowsInTime(r, h.clock);
    } else {
      forall i | 0 <= i < |h.commands| ensures !(h.commands[i].run == Some(run) && h.commands[i].position == position) {
        assert CommandOk(h.commands[i], h.table, h.clock);
        assert !Matches(h.commands[i], run, r.steps[position - 1], r.rows[position - 1].startedAt);
      }
    }
  }

  lemma DeletedRunHasNoCommand(h: Hub, run: int)
    requires Inv(h) && run !in h.table.runs
    ensures forall i :: 0 <= i < |h.commands| ==> h.commands[i].run != Some(run)
  {
    forall i | 0 <= i < |h.commands| ensures h.commands[i].run != Some(run) {
      assert CommandOk(h.commands[i], h.table, h.clock);
    }
  }

  lemma LookUpKeeps(h: Hub, tid: nat)
    requires Inv(h) && h.up && tid in h.threads && h.threads[tid].pc.Settling?
    ensures Inv(LookUp(h, tid))
  {
    hide Inv;
    var th := h.threads[tid];
    var p := th.pc.position;
    ThreadFacts(h, tid);
    if p <= |th.steps| {
      if th.run in h.table.runs {
        LookupFindsOwnCommand(h, th.run, p);
      } else {
        DeletedRunHasNoCommand(h, th.run);
      }
      match LatestRunCommand(h.commands, th.run, th.steps[p - 1], th.pc.since) {
        case None => MoveKeeps(h, tid, th.(pc := Sending(p)));
        case Some(c) => MoveKeeps(h, tid, th.(pc := Awaiting(p, c)));
      }
    }
  }

  lemma StartWaitKeeps(h: Hub, tid: nat, resumeAt: Instant)
    requires Inv(h) && h.up && tid in h.threads && h.threads[tid].pc.AtStep?
    requires StepsFinishedBefore(h.table, h.threads[tid].run, h.clock)
    requires h.threads[tid].pc.position <= |h.threads[tid].steps|
             && h.threads[tid].steps[h.threads[tid].pc.position - 1].Wait?
    requires resumeAt == WaitUntil(h.clock, h.threads[tid].steps[h.threads[tid].pc.position - 1])
    ensures Inv(StartWait(h, tid, h.threads[tid].pc.position, resumeAt))
    ensures Evolves(h.table, StartWait(h, tid, h.threads[tid].pc.position, resumeAt).table)
  {
    hide Inv;
    var th := h.threads[tid];
    var p := th.pc.position;
    ThreadFacts(h, tid);
    if WaitRun(h.table, th.run, p, h.clock, resumeAt).None? {
      ExitKeeps(h, tid);
    } else {
      RunFacts(h, th.run);
      WaitingRunKeeps(h.table.runs[th.run], p, h.clock, resumeAt);
      StoreStepKeeps(h, tid, WaitingRun(h.table.runs[th.run], p, h.clock, resumeAt),
                     Some(th.(pc := Rescheduling(resumeAt))));
    }
  }

  lemma NothingSentYet(h: Hub, r: int, position: Position)
    requires Inv(h) && r in h.table.runs && position == |h.table.runs[r].rows| + 1
    ensures !HasCommand(h.commands, r, position)
  {
    forall i | 0 <= i < |h.commands| && h.commands[i].run == Some(r) ensures h.commands[i].position != position {
      assert CommandOk(h.commands[i], h.table, h.clock);
    }
  }

  lemma StartSetKeeps(h: Hub, tid: nat)
    requires Inv(h) && h.up && tid in h.threads && h.threads[tid].pc.AtStep?
    requires StepsFinishedBefore(h.table, h.threads[tid].run, h.clock)
    requires h.threads[tid].pc.position <= |h.threads[tid].steps|
             && h.threads[tid].steps[h.threads[tid].pc.position - 1].Set?
    ensures Inv(StartSet(h, tid, h.threads[tid].pc.position))
    ensures Evolves(h.table, StartSet(h, tid, h.threads[tid].pc.position).table)
  {
    hide Inv;
    var th := h.threads[tid];
    var p := th.pc.position;
    ThreadFacts(h, tid);
    if StartRunStep(h.table, th.run, p, h.clock).None? {
      ExitKeeps(h, tid);
    } else {
      NothingSentYet(h, th.run, p);
      RunFacts(h, th.run);
      StartedRunKeeps(h.table.runs[th.run], p, h.clock);
      StoreStepKeeps(h, tid, StartedRun(h.table.runs[th.run], p, false, h.clock), Some(th.(pc := Sending(p))));
    }
  }

  lemma StartStepKeeps(h: Hub, tid: nat)
    requires Inv(h) && h.up && tid in h.threads && h.threads[tid].pc.AtStep?
    requires StepsFinishedBefore(h.table, h.threads[tid].run, h.clock)
    ensures Inv(StartStep(h, tid)) && Evolves(h.table, StartStep(h, tid).table)
  {
    hide Inv;
    var th := h.threads[tid];
    if th.pc.position > |th.steps| {
      ThreadFacts(h, tid);
      MoveKeeps(h, tid, th.(pc := Ending));
    } else if th.steps[th.pc.position - 1].Wait? {
      StartWaitKeeps(h, tid, WaitUntil(h.clock, th.steps[th.pc.position - 1]));
    } else {
      StartSetKeeps(h, tid);
    }
  }

  lemma SentThreadOk(th: Thread, t: Table, commands: seq<Command>, command: Command, next: Pc)
    requires ThreadOk(th, t, commands) && th.run in t.runs && th.pc.Sending?
    requires command.run == Some(th.run) && command.position == th.pc.position
    requires next == Awaiting(th.pc.position, |commands|) || next == Finishing(th.pc.position, false, Some(|commands|))
    ensures ThreadOk(th.(pc := next), t, commands + [command])
  {
  }

  lemma SendKeeps(h: Hub, tid: nat, result: SendResult)
    requires Inv(h) && h.up && tid in h.threads && h.threads[tid].pc.Sending?
    requires h.threads[tid].run in h.table.runs || result.NotRecorded?
    ensures Inv(Send(h, tid, result))
  {
    hide Inv;
    var th := h.threads[tid];
    var p := th.pc.position;
    if result.NotRecorded? || p > |th.steps| || th.steps[p - 1].Wait? {
      SendFailedKeeps(h, tid);
    } else {
      var id := |h.commands|;
      SendRecordedKeeps(h, tid, if result.Sent? then Awaiting(p, id) else Finishing(p, false, Some(id)));
    }
  }

  lemma SendFailedKeeps(h: Hub, tid: nat)
    requires Inv(h) && h.up && tid in h.threads && h.threads[tid].pc.Sending?
    ensures Inv(Goto(h, tid, Finishing(h.threads[tid].pc.position, false, None)))
  {
    hide Inv;
    var th := h.threads[tid];
    ThreadFacts(h, tid);
    MoveKeeps(h, tid, th.(pc := Finishing(th.pc.position, false, None)));
  }

  lemma SendRecordedKeeps(h: Hub, tid: nat, next: Pc)
    requires Inv(h) && h.up && tid in h.threads && h.threads[tid].pc.Sending? && h.threads[tid].run in h.table.runs
    requires h.threads[tid].pc.position <= |h.threads[tid].steps|
             && h.threads[tid].steps[h.threads[tid].pc.position - 1].Set?
    requires next == Awaiting(h.threads[tid].pc.position, |h.commands|)
          || next == Finishing(h.threads[tid].pc.position, false, Some(|h.commands|))
    ensures var command :=
              CommandFor(h.threads[tid].run, h.threads[tid].pc.position,
                         h.threads[tid].steps[h.threads[tid].pc.position - 1], h.clock);
            Inv(Goto(h.(commands := h.commands + [command]), tid, next))
  {
    hide Inv;
    var th := h.threads[tid];
    var command := CommandFor(th.run, th.pc.position, th.steps[th.pc.position - 1], h.clock);
    ThreadFacts(h, tid);
    RunFacts(h, th.run);
    SentThreadOk(th, h.table, h.commands, command, next);
    RecordingKeeps(h, tid, command, th.(pc := next));
  }

  /** A command recorded for a step that has none yet. */
  lemma RecordingKeeps(h: Hub, tid: nat, command: Command, next: Thread)
    requires Inv(h) && h.up && tid in h.threads && next.run == h.threads[tid].run && command.run == Some(next.run)
    requires CommandOk(command, h.table, h.clock) && !HasCommand(h.commands, next.run, command.position)
    requires !next.pc.Resuming?
    requires ThreadOk(next, h.table, h.commands + [command])
    ensures Inv(h.(commands := h.commands + [command], threads := h.threads[tid := next]))
  {
    hide TableOk, CommandOk, ThreadOk, DriversOk;
    var h' := h.(commands := h.commands + [command], threads := h.threads[tid := next]);
    forall i | 0 <= i < |h'.commands| && h'.commands[i].run == Some(next.run)
      ensures CommandOk(h'.commands[i], h'.table, h.clock)
    {
      assert i < |h.commands| ==> h'.commands[i] == h.commands[i];
    }
    OwnStepKeeps(h, h', tid, Some(next));
  }

  lemma FinishStepKeeps(h: Hub, tid: nat)
    requires Inv(h) && h.up && tid in h.threads && h.threads[tid].pc.Finishing?
    ensures Inv(FinishStep(h, tid)) && Evolves(h.table, FinishStep(h, tid).table)
  {
    hide Inv;
    var th := h.threads[tid];
    var Finishing(position, ok, sent) := th.pc;
    var outcome := if ok then StepSucceeded else StepFailed;
    var next := th.(pc := if ok then AtStep(position + 1) else Failing(position));
    if th.run !in h.table.runs {
      assert FinishStep(h, tid) == h.(threads := h.threads[tid := next]);
      ThreadFacts(h, tid);
      MoveKeeps(h, tid, next);
    } else {
      FinishRowKeeps(h, tid, outcome, sent, next);
    }
  }

  /** A step finished after its run was cancelled only records the command it sent. */
  lemma FinishRowKeeps(h: Hub, tid: nat, outcome: StepOutcome, sent: Option<int>, next: Thread)
    requires Inv(h) && h.up && tid in h.threads && h.threads[tid].pc.Finishing?
    requires h.threads[tid].run in h.table.runs
    requires (outcome == StepSucceeded && next == h.threads[tid].(pc := AtStep(h.threads[tid].pc.position + 1)))
          || (outcome == StepFailed && next == h.threads[tid].(pc := Failing(h.threads[tid].pc.position)))
    ensures var table := FinishRunStep(h.table, next.run, h.threads[tid].pc.position - 1, outcome, sent, h.clock);
            Inv(h.(table := table, threads := h.threads[tid := next])) && Evolves(h.table, table)
  {
    hide Inv;
    var index := h.threads[tid].pc.position as int - 1;
    ThreadFacts(h, tid);
    RunFacts(h, next.run);
    RowFinishedKeeps(h.table.runs[next.run], index, outcome, sent, h.clock);
    StoreStepKeeps(h, tid, RowFinished(h.table.runs[next.run], index, outcome, sent, h.clock), Some(next));
  }

  lemma CloseKeeps(h: Hub, tid: nat, status: RunStatus)
    requires Inv(h) && h.up && tid in h.threads
    requires (h.threads[tid].pc.Failing? && status == Failed) || (h.threads[tid].pc.Ending? && status == Succeeded)
    ensures Inv(Close(h, tid, status)) && Evolves(h.table, Close(h, tid, status).table)
  {
    hide Inv;
    var r := h.threads[tid].run;
    ThreadFacts(h, tid);
    if FinishRun(h.table, r, status, h.clock).None? {
      ExitKeeps(h, tid);
    } else {
      RunFacts(h, r);
      FinishedRunKeeps(h.table.runs[r], status, h.clock);
      StoreStepKeeps(h, tid, h.table.runs[r].(status := status, finishedAt := Some(h.clock)), None);
    }
  }

  // ---------- The other actions ----------

  lemma AdvanceKeeps(h: Hub, tid: nat, result: SendResult, acknowledged: bool)
    requires tid in h.threads && Enabled(h, Advance(tid, result, acknowledged)) && Inv(h)
    ensures var h' := AdvanceThread(h, tid, result, acknowledged);
            Inv(h') && Evolves(h.table, h'.table)
  {
    hide Inv;
    TableFacts(h);
    EvolvesReflexive(h.table);
    var th := h.threads[tid];
    match th.pc {
      case Loaded(_) => LaunchKeeps(h, tid);
      case Resuming => ResumeKeeps(h, tid);
      case Reading => ReadBackKeeps(h, tid);
      case Begin(_) => EnterKeeps(h, tid);
      case Settling(_, _) => LookUpKeeps(h, tid);
      case AtStep(_) => StartStepKeeps(h, tid);
      case Sending(_) => SendKeeps(h, tid, result);
      case Awaiting(_, _) => VerdictKeeps(h, tid, acknowledged);
      case Finishing(_, _, _) => FinishStepKeeps(h, tid);
      case Failing(_) => CloseKeeps(h, tid, Failed);
      case Ending => CloseKeeps(h, tid, Succeeded);
      case Rescheduling(at) =>
        ThreadFacts(h, tid);
        HandOverKeeps(h, tid, at);
    }
  }

  lemma VerdictKeeps(h: Hub, tid: nat, acknowledged: bool)
    requires Inv(h) && h.up && tid in h.threads && h.threads[tid].pc.Awaiting?
    ensures Inv(Goto(h, tid, Finishing(h.threads[tid].pc.position, acknowledged, Some(h.threads[tid].pc.command))))
  {
    hide Inv;
    var th := h.threads[tid];
    ThreadFacts(h, tid);
    MoveKeeps(h, tid, th.(pc := Finishing(th.pc.position, acknowledged, Some(th.pc.command))));
  }

  /** A cancel leaves the run's driver where it is, with nothing left to drive. */
  lemma CancelledThreadOk(th: Thread, t: Table, commands: seq<Command>, ids: set<int>, at: Instant)
    requires ThreadOk(th, t, commands) && TableOk(t)
    requires forall id :: id in ids ==> IsActive(t, id)
    ensures ThreadOk(th, CancelAll(t, ids, at), commands)
  {
    if th.run in t.runs && th.run in ids {
      assert IsActive(t, th.run);
      CancelledRunKeeps(t.runs[th.run], at);
    }
  }

  lemma CancelledCommandOk(c: Command, t: Table, clock: Instant, ids: set<int>, at: Instant)
    requires CommandOk(c, t, clock)
    ensures CommandOk(c, CancelAll(t, ids, at), clock)
  {
    match c.run {
      case None =>
      case Some(r) =>
        assert CancelAll(t, ids, at).runs[r] == if r in ids then CancelledRun(t.runs[r], at) else t.runs[r];
    }
  }

  lemma CancelAllInv(h: Hub, ids: set<int>)
    requires Inv(h) && h.up && forall id :: id in ids ==> IsActive(h.table, id)
    ensures Inv(h.(table := CancelAll(h.table, ids, h.clock)))
  {
    var table := CancelAll(h.table, ids, h.clock);
    CancelAllKeeps(h.table, ids, h.clock);
    forall i | 0 <= i < |h.commands| ensures CommandOk(h.commands[i], table, h.clock) {
      CancelledCommandOk(h.commands[i], h.table, h.clock, ids, h.clock);
    }
    forall tid | tid in h.threads ensures ThreadOk(h.threads[tid], table, h.commands) {
      CancelledThreadOk(h.threads[tid], h.table, h.commands, ids, h.clock);
    }
    forall id | id in table.runs ensures RowsInTime(table.runs[id], h.clock) {
      assert RowsInTime(h.table.runs[id], h.clock);
    }
    CancelledDrivers(h, ids, table);
  }

  lemma CancelledDrivers(h: Hub, ids: set<int>, table: Table)
    requires DriversOk(h) && h.up && table == CancelAll(h.table, ids, h.clock)
    ensures DriversOk(h.(table := table))
  {
    var h' := h.(table := table);
    forall run | IsActive(table, run) ensures run in h'.resumes || exists tid :: Drives(h', tid, run) {
      assert IsActive(h.table, run);
      if run !in h.resumes {
        var tid :| Drives(h, tid, run);
        assert Drives(h', tid, run);
      }
    }
  }

  /** A new run's ID is new to every driver, resume entry and command. */
  lemma InsertInv(h: Hub, automation: int, steps: seq<Step>, status: RunStatus, finishedAt: Option<Instant>,
                  tid: Option<nat>)
    requires Inv(h) && h.up
    requires status.Running? || status.Skipped? || status.Missed? || status.Failed?
    requires finishedAt.None? <==> status.Running?
    requires status.Running? ==> ActiveRuns(h.table, automation) == {}
    requires status.Running? <==> tid.Some?
    requires tid.Some? ==> tid.value !in h.threads
    ensures var table := InsertRun(h.table, automation, steps, status, h.clock, finishedAt);
            Inv(h.(table := table,
                   threads := if tid.Some? then h.threads[tid.value := Thread(h.table.nextId, steps, Reading)]
                   else h.threads))
  {
    var table := InsertRun(h.table, automation, steps, status, h.clock, finishedAt);
    var h' := h.(table := table,
                 threads := if tid.Some? then h.threads[tid.value := Thread(h.table.nextId, steps, Reading)]
                 else h.threads);
    ThreadsAreOld(h);
    hide TableOk, CommandOk, ThreadOk, DriversOk, ResumesDue, AtMostOneCommandPerStep;
    InsertKeeps(h.table, automation, steps, status, h.clock, finishedAt);
    InsertedCommands(h, table);
    InsertedThreads(h, table, h'.threads, steps, tid);
    InsertedDrivers(h, h', tid);
    InsertedResumes(h, h');
  }

  lemma ThreadsAreOld(h: Hub)
    requires Inv(h)
    ensures forall tid :: tid in h.threads ==> h.threads[tid].run < h.table.nextId
  {
    forall tid | tid in h.threads ensures h.threads[tid].run < h.table.nextId {
      ThreadFacts(h, tid);
    }
  }

  lemma InsertedCommands(h: Hub, table: Table)
    requires Inv(h) && h.table.nextId in table.runs
    requires table.runs == h.table.runs[h.table.nextId := table.runs[h.table.nextId]]
    ensures forall i :: 0 <= i < |h.commands| ==> CommandOk(h.commands[i], table, h.clock)
  {
    forall i | 0 <= i < |h.commands| ensures CommandOk(h.commands[i], table, h.clock) {
      assert CommandOk(h.commands[i], h.table, h.clock);
    }
  }

  lemma InsertedThreads(h: Hub, table: Table, threads: map<nat, Thread>, steps: seq<Step>, tid: Option<nat>)
    requires Inv(h) && h.table.nextId in table.runs && table.nextId == h.table.nextId + 1
    requires table.runs == h.table.runs[h.table.nextId := table.runs[h.table.nextId]]
    requires tid.Some? ==> table.runs[h.table.nextId].status.Running? && table.runs[h.table.nextId].rows == []
    requires threads == if tid.Some? then h.threads[tid.value := Thread(h.table.nextId, steps, Reading)] else h.threads
    requires |table.runs[h.table.nextId].rows| == 0
    ensures forall i :: i in threads ==> ThreadOk(threads[i], table, h.commands)
  {
    forall i | i in threads ensures ThreadOk(threads[i], table, h.commands) {
      if i in h.threads && Some(i) != tid {
        ThreadFrame(h.threads[i], h.table, h.commands, table, h.commands);
      }
    }
  }

  lemma InsertedDrivers(h: Hub, h': Hub, tid: Option<nat>)
    requires DriversOk(h) && h.up && h'.up && h'.resumes == h.resumes && TableOk(h.table)
    requires forall i :: i in h.threads ==> h.threads[i].run < h.table.nextId
    requires h.table.nextId in h'.table.runs
             && h'.table.runs == h.table.runs[h.table.nextId := h'.table.runs[h.table.nextId]]
    requires h'.table.nextId == h.table.nextId + 1
    requires IsActive(h'.table, h.table.nextId) <==> tid.Some?
    requires match tid
             case None => h'.threads == h.threads
             case Some(i) => i !in h.threads && i in h'.threads && h'.threads[i].run == h.table.nextId
                             && h'.threads == h.threads[i := h'.threads[i]]
    ensures DriversOk(h')
  {
    forall run | IsActive(h'.table, run) ensures run in h'.resumes || exists i :: Drives(h', i, run) {
      if run == h.table.nextId {
        assert Drives(h', tid.value, run);
      } else {
        assert IsActive(h.table, run);
        if run !in h.resumes {
          var i :| Drives(h, i, run);
          assert Drives(h', i, run);
        }
      }
    }
  }

  lemma InsertedResumes(h: Hub, h': Hub)
    requires ResumesDue(h) && h'.clock == h.clock && forall i :: i in h.threads ==> h.threads[i].run < h.table.nextId
    requires forall id ::
               id in h'.table.runs && id != h.table.nextId ==>
                 id in h.table.runs && h'.table.runs[id] == h.table.runs[id]
    requires forall i ::
               i in h'.threads && h'.threads[i].pc.Resuming? ==> i in h.threads && h.threads[i] == h'.threads[i]
    ensures ResumesDue(h')
  {
    forall i | i in h'.threads && h'.threads[i].pc.Resuming? && IsActive(h'.table, h'.threads[i].run)
      ensures h'.table.runs[h'.threads[i].run].resumeAt.Some?
              && h'.table.runs[h'.threads[i].run].resumeAt.value <= h'.clock
    {
      assert IsActive(h.table, h.threads[i].run);
    }
  }

  lemma AdmitInv(h: Hub, automation: int, steps: seq<Step>, mode: Mode, tid: nat)
    requires Enabled(h, Admit(automation, steps, mode, tid)) && Inv(h)
    ensures Inv(Apply(h, Admit(automation, steps, mode, tid)))
    ensures Evolves(h.table, Apply(h, Admit(automation, steps, mode, tid)).table)
  {
    hide Inv;
    TableFacts(h);
    AdmitKeeps(h.table, automation, steps, mode, h.clock);
    var active := ActiveRuns(h.table, automation);
    if active == {} {
      InsertInv(h, automation, steps, Running, None, Some(tid));
    } else if mode.Restart? {
      var cleared := h.(table := CancelAll(h.table, active, h.clock));
      CancelAllKeeps(h.table, active, h.clock);
      CancelAllInv(h, active);
      assert ActiveRuns(cleared.table, automation) == {} by {
        forall id ensures id !in ActiveRuns(cleared.table, automation) {
          assert IsActive(cleared.table, id) ==> IsActive(h.table, id) && id !in active;
        }
      }
      InsertInv(cleared, automation, steps, Running, None, Some(tid));
    } else {
      InsertInv(h, automation, steps, Skipped, Some(h.clock), None);
    }
  }

  lemma CancelInv(h: Hub, automation: int, run: int)
    requires Enabled(h, Cancel(automation, run)) && Inv(h)
    ensures var h' := Apply(h, Cancel(automation, run)); Inv(h') && Evolves(h.table, h'.table)
  {
    hide Inv;
    TableFacts(h);
    EvolvesReflexive(h.table);
    if CancelRun(h.table, automation, run, h.clock).CancelOk? {
      CancelAllKeeps(h.table, {run}, h.clock);
      CancelAllInv(h, {run});
    }
  }

  lemma DeletedThreadOk(th: Thread, t: Table, commands: seq<Command>, t': Table, commands': seq<Command>, ids: set<int>)
    requires ThreadOk(th, t, commands)
    requires t' == DeleteRuns(t, ids)
    requires commands' == Unlinked(commands, ids)
    ensures ThreadOk(th, t', commands')
  {
    ThreadFrame(th, t, commands, t', commands');
  }

  lemma DeletedCommandOk(c: Command, t: Table, clock: Instant, ids: set<int>)
    requires CommandOk(c, t, clock)
    ensures CommandOk(Unlink(c, ids), DeleteRuns(t, ids), clock)
  {
  }

  lemma DeleteInv(h: Hub, ids: set<int>)
    requires Enabled(h, Delete(ids)) && Inv(h)
    ensures Inv(Apply(h, Delete(ids))) && Evolves(h.table, Apply(h, Delete(ids)).table)
  {
    hide TableOk, RowsInTime, CommandOk, ThreadOk, DriversOk, ResumesDue, AtMostOneCommandPerStep, Evolves;
    var table := DeleteRuns(h.table, ids);
    var commands := Unlinked(h.commands, ids);
    DeleteRunsKeeps(h.table, ids);
    forall i | 0 <= i < |commands| ensures CommandOk(commands[i], table, h.clock) {
      DeletedCommandOk(h.commands[i], h.table, h.clock, ids);
    }
    forall tid | tid in h.threads ensures ThreadOk(h.threads[tid], table, commands) {
      DeletedThreadOk(h.threads[tid], h.table, h.commands, table, commands, ids);
    }
    DeletedDrivers(h, h.(table := table, commands := commands), ids);
    UnlinkedOnce(h.commands, ids);
  }

  lemma UnlinkedOnce(commands: seq<Command>, ids: set<int>)
    requires AtMostOneCommandPerStep(commands)
    ensures AtMostOneCommandPerStep(Unlinked(commands, ids))
  {
    var unlinked := Unlinked(commands, ids);
    forall i, j | 0 <= i < |unlinked| && 0 <= j < |unlinked| && unlinked[i].run.Some?
                  && unlinked[i].run == unlinked[j].run && unlinked[i].position == unlinked[j].position
      ensures i == j
    {
      assert commands[i].run == commands[j].run && commands[i].position == commands[j].position;
    }
  }

  lemma DeletedDrivers(h: Hub, h': Hub, ids: set<int>)
    requires DriversOk(h) && ResumesDue(h) && h.up && h'.up && h'.threads == h.threads && h'.resumes == h.resumes
    requires h'.table == DeleteRuns(h.table, ids) && h'.clock == h.clock
    ensures DriversOk(h') && ResumesDue(h')
  {
    forall run | IsActive(h'.table, run) ensures run in h'.resumes || exists tid :: Drives(h', tid, run) {
      assert IsActive(h.table, run);
      if run !in h.resumes {
        var tid :| Drives(h, tid, run);
        assert Drives(h', tid, run);
      }
    }
  }

  lemma PopInv(h: Hub, run: int, tid: nat)
    requires Enabled(h, Pop(run, tid)) && Inv(h)
    ensures Inv(Apply(h, Pop(run, tid)))
  {
    var h' := Apply(h, Pop(run, tid));
    assert ThreadOk(Thread(run, [], Resuming), h.table, h.commands);
    forall r | IsActive(h'.table, r) ensures r in h'.resumes || exists i :: Drives(h', i, r) {
      if r == run {
        assert Drives(h', tid, r);
      } else if r !in h.resumes {
        var i :| Drives(h, i, r);
        assert Drives(h', i, r);
      }
    }
  }

  /** Removing a resume entry, or a driver the startup skips, takes nothing from an active run. */
  lemma DropInv(h: Hub, run: int)
    requires Inv(h) && h.up && !IsActive(h.table, run)
    ensures Inv(h.(resumes := h.resumes - {run}))
  {
    var h' := h.(resumes := h.resumes - {run});
    forall r | IsActive(h'.table, r) ensures r in h'.resumes || exists i :: Drives(h', i, r) {
      if r !in h.resumes {
        var i :| Drives(h, i, r);
        assert Drives(h', i, r);
      }
    }
  }

  /** Startup finds every active run in the table, and nothing else is driving one. */
  lemma StartInv(h: Hub)
    requires Enabled(h, Start) && Inv(h)
    ensures Inv(Apply(h, Start))
  {
    var h' := Apply(h, Start);
    forall tid | tid in h'.threads ensures ThreadOk(h'.threads[tid], h'.table, h'.commands) {
      assert tid in LoadedIds(h.table);
    }
    forall run | IsActive(h'.table, run) ensures exists tid :: Drives(h', tid, run) {
      assert run in LoadedIds(h.table);
      assert Drives(h', run, run);
    }
  }

  /** Every step of the hub keeps the invariant, and history only grows. */
  lemma StepKeeps(h: Hub, a: Action)
    requires Enabled(h, a) && Inv(h)
    ensures Inv(Apply(h, a)) && Evolves(h.table, Apply(h, a).table)
  {
    hide Inv;
    TableFacts(h);
    EvolvesReflexive(h.table);
    match a {
      case Tick(now) => TickInv(h, now);
      case Admit(automation, steps, mode, tid) => AdmitInv(h, automation, steps, mode, tid);
      case Record(automation, steps, status) =>
        InsertKeeps(h.table, automation, steps, status, h.clock, Some(h.clock));
        InsertInv(h, automation, steps, status, Some(h.clock), None);
      case Cancel(automation, run) => CancelInv(h, automation, run);
      case DropEntry(run) => DropInv(h, run);
      case Pop(run, tid) => PopInv(h, run, tid);
      case Delete(runs) => DeleteInv(h, runs);
      case Crash => CrashInv(h);
      case Start => StartInv(h);
      case Skip(tid) => ExitKeeps(h, tid);
      case Advance(tid, result, acknowledged) => AdvanceKeeps(h, tid, result, acknowledged);
    }
  }

  lemma TickInv(h: Hub, now: Instant)
    requires Inv(h) && h.clock <= now
    ensures Inv(h.(clock := now))
  {
    var h' := h.(clock := now);
    forall i | 0 <= i < |h.commands| ensures CommandOk(h.commands[i], h'.table, now) {
      assert CommandOk(h.commands[i], h.table, h.clock);
    }
    forall id | id in h'.table.runs ensures RowsInTime(h'.table.runs[id], now) {
      assert RowsInTime(h.table.runs[id], h.clock);
    }
    forall run | h.up && IsActive(h'.table, run) ensures run in h'.resumes || exists i :: Drives(h', i, run) {
      if run !in h.resumes {
        var i :| Drives(h, i, run);
        assert Drives(h', i, run);
      }
    }
  }

  lemma CrashInv(h: Hub)
    requires Inv(h)
    ensures Inv(h.(threads := map[], resumes := map[], up := false))
  {
  }
}
