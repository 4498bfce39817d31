/**
 The run tables of the automation store, as values: automation_runs with the
 automation_run_steps rows each run owns, and one function for each transaction
 that changes them.
 */
module RunTable {
  import opened Wrappers

  datatype Mode = Single | Restart

  datatype Step =
    | Set(sensor: int, property: string, value: string)
    | Wait(seconds: nat)

  datatype RunStatus = Running | Waiting | Succeeded | Failed | Cancelled | Missed | Skipped

  datatype StepOutcome = StepRunning | StepSucceeded | StepFailed | StepCancelled

  /** Positions count from 1. */
  type Position = p: nat | 1 <= p witness 1

  /** A row of automation_run_steps. */
  datatype StepRow = StepRow(
    position: Position,
    wait: bool,
    outcome: StepOutcome,
    command: Option<int>,
    startedAt: Instant,
    finishedAt: Option<Instant>)

  /** A row of automation_runs, with its step rows in the order they were inserted. */
  datatype Run = Run(
    automation: int,
    status: RunStatus,
    currentStep: nat,
    steps: seq<Step>,
    startedAt: Instant,
    finishedAt: Option<Instant>,
    resumeAt: Option<Instant>,
    rows: seq<StepRow>)

  /** Run IDs are handed out in order and never used again. */
  datatype Table = Table(runs: map<int, Run>, nextId: int)

  predicate Active(status: RunStatus) {
    status.Running? || status.Waiting?
  }

  predicate IsActive(t: Table, id: int) {
    id in t.runs && Active(t.runs[id].status)
  }

  function ActiveRuns(t: Table, automation: int): set<int> {
    set id | id in t.runs && t.runs[id].automation == automation && Active(t.runs[id].status)
  }

  // ---------- The transactions ----------

  function InsertRun(t: Table, automation: int, steps: seq<Step>, status: RunStatus, startedAt: Instant,
                     finishedAt: Option<Instant>): Table {
    Table(t.runs[t.nextId := Run(automation, status, 0, steps, startedAt, finishedAt, None, [])], t.nextId + 1)
  }

  function CancelRow(row: StepRow, at: Instant): StepRow {
    if row.outcome.StepRunning? then row.(outcome := StepCancelled, finishedAt := Some(at)) else row
  }

  function CancelRows(rows: seq<StepRow>, at: Instant): seq<StepRow> {
    seq(|rows|, i requires 0 <= i < |rows| => CancelRow(rows[i], at))
  }

  function CancelledRun(run: Run, at: Instant): Run {
    run.(status := Cancelled, finishedAt := Some(at), resumeAt := None, rows := CancelRows(run.rows, at))
  }

  function CancelAll(t: Table, ids: set<int>, at: Instant): Table {
    t.(runs := map id | id in t.runs :: if id in ids then CancelledRun(t.runs[id], at) else t.runs[id])
  }

  /** What an admission did: the run it recorded, and the runs it cancelled to make room. */
  datatype Admission = Admission(run: int, status: RunStatus, cancelled: set<int>)

  function AdmitRun(t: Table, automation: int, steps: seq<Step>, mode: Mode, at: Instant): (Table, Admission) {
    var active := ActiveRuns(t, automation);
    if active == {} then
      (InsertRun(t, automation, steps, Running, at, None), Admission(t.nextId, Running, {}))
    else if mode.Restart? then
      (InsertRun(CancelAll(t, active, at), automation, steps, Running, at, None), Admission(t.nextId, Running, active))
    else
      (InsertRun(t, automation, steps, Skipped, at, Some(at)), Admission(t.nextId, Skipped, {}))
  }

  datatype CancelError = RunNotFound | RunNotActive
  datatype Cancellation = CancelOk(table: Table) | CancelRefused(error: CancelError)

  function CancelRun(t: Table, automation: int, id: int, at: Instant): Cancellation {
    if id !in t.runs || t.runs[id].automation != automation then CancelRefused(RunNotFound)
    else if !Active(t.runs[id].status) then CancelRefused(RunNotActive)
    else CancelOk(CancelAll(t, {id}, at))
  }

  /** The guarded updates give None where the store answers that the run is gone. */
  function StartRunStep(t: Table, id: int, position: Position, at: Instant): Option<Table> {
    if id in t.runs && t.runs[id].status.Running? then
      Some(t.(runs := t.runs[id := StartedRun(t.runs[id], position, false, at)]))
    else None
  }

  function StartedRun(run: Run, position: Position, wait: bool, at: Instant): Run {
    run.(currentStep := position, rows := run.rows + [StepRow(position, wait, StepRunning, None, at, None)])
  }

  function FinishRow(row: StepRow, outcome: StepOutcome, command: Option<int>, at: Instant): StepRow {
    if row.outcome.StepRunning? then row.(command := command, outcome := outcome, finishedAt := Some(at))
    else row.(command := command)
  }

  function RowFinished(run: Run, index: nat, outcome: StepOutcome, command: Option<int>, at: Instant): Run
    requires index < |run.rows|
  {
    run.(rows := run.rows[index := FinishRow(run.rows[index], outcome, command, at)])
  }

  /** A step row is named by its run and its place among the run's rows. */
  function FinishRunStep(t: Table, id: int, index: nat, outcome: StepOutcome, command: Option<int>,
                         at: Instant): Table {
    if id in t.runs && index < |t.runs[id].rows| then
      t.(runs := t.runs[id := RowFinished(t.runs[id], index, outcome, command, at)])
    else t
  }

  function WaitRun(t: Table, id: int, position: Position, at: Instant, resumeAt: Instant): Option<Table> {
    if id in t.runs && t.runs[id].status.Running? then
      Some(t.(runs := t.runs[id := WaitingRun(t.runs[id], position, at, resumeAt)]))
    else None
  }

  function WaitingRun(run: Run, position: Position, at: Instant, resumeAt: Instant): Run {
    StartedRun(run, position, true, at).(status := Waiting, resumeAt := Some(resumeAt))
  }

  /** The update of the wait's row is not guarded by the row's outcome. */
  function ResumeRow(row: StepRow, current: nat, at: Instant): StepRow {
    if row.position == current then row.(outcome := StepSucceeded, finishedAt := Some(at)) else row
  }

  function ResumeRows(rows: seq<StepRow>, current: nat, at: Instant): seq<StepRow> {
    seq(|rows|, i requires 0 <= i < |rows| => ResumeRow(rows[i], current, at))
  }

  function ResumedRun(run: Run, at: Instant): Run {
    run.(status := Running, resumeAt := None, rows := ResumeRows(run.rows, run.currentStep, at))
  }

  function ResumeRun(t: Table, id: int, at: Instant): Option<Table> {
    if id in t.runs && t.runs[id].status.Waiting? then
      Some(t.(runs := t.runs[id := ResumedRun(t.runs[id], at)]))
    else None
  }

  function FinishRun(t: Table, id: int, status: RunStatus, at: Instant): Option<Table> {
    if id in t.runs && t.runs[id].status.Running? then
      Some(t.(runs := t.runs[id := t.runs[id].(status := status, finishedAt := Some(at))]))
    else None
  }

  /** Retention, and deleting a sensor together with the automations that use it. */
  function RunsOf(t: Table, automations: set<int>): set<int> {
    set id | id in t.runs && t.runs[id].automation in automations
  }

  function DeleteRuns(t: Table, ids: set<int>): Table {
    t.(runs := t.runs - ids)
  }

  // ---------- The invariant ----------

  ghost predicate AllSucceeded(rows: seq<StepRow>) {
    forall i :: 0 <= i < |rows| ==> rows[i].outcome.StepSucceeded?
  }

  /** Only the newest row may be anything but a success. */
  ghost predicate AllButLastSucceeded(rows: seq<StepRow>) {
    forall i :: 0 <= i < |rows| - 1 ==> rows[i].outcome.StepSucceeded?
  }

  ghost predicate RowsFollowSteps(run: Run) {
    && run.currentStep == |run.rows| <= |run.steps|
    && forall i :: 0 <= i < |run.rows| ==>
         && run.rows[i].position == i + 1
         && run.rows[i].wait == run.steps[i].Wait?
         && (run.rows[i].finishedAt.None? <==> run.rows[i].outcome.StepRunning?)
  }

  function WaitUntil(at: Instant, step: Step): Instant
    requires step.Wait?
  {
    at + step.seconds * 1_000_000_000
  }

  /** A run waits until its wait's time is up, and a wait that is over lasted at least that long. */
  ghost predicate WaitsInFull(run: Run)
    requires RowsFollowSteps(run)
  {
    && (run.status.Waiting? && run.rows != [] && run.rows[|run.rows| - 1].wait ==>
          run.resumeAt == Some(WaitUntil(run.rows[|run.rows| - 1].startedAt, run.steps[|run.rows| - 1])))
    && forall i :: 0 <= i < |run.rows| ==>
         run.rows[i].wait && run.rows[i].outcome.StepSucceeded? ==>
           run.rows[i].finishedAt.value >= WaitUntil(run.rows[i].startedAt, run.steps[i])
  }

  ghost predicate RunOk(run: Run) {
    && RowsFollowSteps(run)
    && AllButLastSucceeded(run.rows)
    && WaitsInFull(run)
    && (run.finishedAt.None? <==> Active(run.status))
    && (run.resumeAt.Some? <==> run.status.Waiting?)
    && (run.status.Waiting? ==>
          |run.rows| > 0 && run.rows[|run.rows| - 1].wait && run.rows[|run.rows| - 1].outcome.StepRunning?)
    && (run.status.Running? ==> forall i :: 0 <= i < |run.rows| ==>
          && (run.rows[i].wait ==> run.rows[i].outcome.StepSucceeded?)
          && !run.rows[i].outcome.StepCancelled?)
    && (!Active(run.status) ==> forall i :: 0 <= i < |run.rows| ==> !run.rows[i].outcome.StepRunning?)
    && (run.status.Succeeded? ==> |run.rows| == |run.steps| && AllSucceeded(run.rows))
    && (run.status.Failed? && run.rows != [] ==> run.rows[|run.rows| - 1].outcome.StepFailed?)
    && (run.status.Missed? || run.status.Skipped? ==> run.rows == [])
  }

  ghost predicate OneActiveRunPerAutomation(t: Table) {
    forall i, j :: IsActive(t, i) && IsActive(t, j) && t.runs[i].automation == t.runs[j].automation ==> i == j
  }

  ghost predicate TableOk(t: Table) {
    && (forall id :: id in t.runs ==> id < t.nextId && RunOk(t.runs[id]))
    && OneActiveRunPerAutomation(t)
  }

  // ---------- What may change over time ----------

  /** A row keeps its place, kind and start, and an outcome once recorded never changes. */
  ghost predicate RowEvolves(a: StepRow, b: StepRow) {
    && a.position == b.position && a.wait == b.wait && a.startedAt == b.startedAt
    && (!a.outcome.StepRunning? ==> b.outcome == a.outcome && b.finishedAt == a.finishedAt)
  }

  ghost predicate RunEvolves(a: Run, b: Run) {
    && a.automation == b.automation && a.steps == b.steps && a.startedAt == b.startedAt
    && |a.rows| <= |b.rows|
    && (forall i :: 0 <= i < |a.rows| ==> RowEvolves(a.rows[i], b.rows[i]))
    && (!Active(a.status) ==> b.status == a.status && b.finishedAt == a.finishedAt && |b.rows| == |a.rows|)
  }

  /** Runs present at both times evolve, and a deleted run's ID never comes back. */
  ghost predicate Evolves(a: Table, b: Table) {
    && a.nextId <= b.nextId
    && (forall id :: id in b.runs && id < a.nextId ==> id in a.runs)
    && (forall id :: id in a.runs && id in b.runs ==> RunEvolves(a.runs[id], b.runs[id]))
  }

  lemma RunEvolvesReflexive(run: Run)
    ensures RunEvolves(run, run)
  {
  }

  lemma EvolvesReflexive(t: Table)
    requires TableOk(t)
    ensures Evolves(t, t)
  {
  }

  lemma EvolvesTransitive(a: Table, b: Table, c: Table)
    requires TableOk(a) && Evolves(a, b) && Evolves(b, c)
    ensures Evolves(a, c)
  {
    forall id | id in a.runs && id in c.runs ensures RunEvolves(a.runs[id], c.runs[id]) {
      if id < b.nextId {
        assert id in b.runs;
        forall i | 0 <= i < |a.runs[id].rows| ensures RowEvolves(a.runs[id].rows[i], c.runs[id].rows[i]) {
          assert RowEvolves(a.runs[id].rows[i], b.runs[id].rows[i]);
          assert RowEvolves(b.runs[id].rows[i], c.runs[id].rows[i]);
        }
      }
    }
  }

  // ---------- What a run starts with, and what its end leaves of it ----------

  /** The run has what it was asked to do, all of it, and has done none of it. */
  ghost predicate IsNewRun(t: Table, id: int, automation: int, steps: seq<Step>, at: Instant) {
    && id in t.runs
    && t.runs[id].automation == automation && t.runs[id].steps == steps && t.runs[id].startedAt == at
    && t.runs[id].currentStep == 0 && t.runs[id].rows == [] && t.runs[id].resumeAt == None
  }

  ghost predicate SameRunsBut(t: Table, t': Table, ids: set<int>) {
    forall id :: id !in ids ==> (id in t.runs <==> id in t'.runs) && (id in t.runs ==> t'.runs[id] == t.runs[id])
  }

  /** The run ended at the moment given and before its time: steps not over ended with it, and the others stand. */
  ghost predicate EndedEarly(a: Run, b: Run, at: Instant) {
    && b.status == Cancelled && b.finishedAt == Some(at) && b.resumeAt == None
    && b.automation == a.automation && b.steps == a.steps && b.startedAt == a.startedAt
    && b.currentStep == a.currentStep
    && |b.rows| == |a.rows|
    && forall i :: 0 <= i < |a.rows| ==> RowEndedEarly(a.rows[i], b.rows[i], at)
  }

  ghost predicate RowEndedEarly(a: StepRow, b: StepRow, at: Instant) {
    if a.outcome == StepRunning then
      b.outcome == StepCancelled && b.finishedAt == Some(at) && b.command == a.command && RowEvolves(a, b)
    else b == a
  }

  /** One more step has started at the moment given, and what the run did before stands. */
  ghost predicate OneMoreStarted(a: Run, b: Run, wait: bool, at: Instant) {
    && b.automation == a.automation && b.steps == a.steps && b.startedAt == a.startedAt && b.finishedAt == a.finishedAt
    && |b.rows| == |a.rows| + 1 && (forall i :: 0 <= i < |a.rows| ==> b.rows[i] == a.rows[i])
    && var row := b.rows[|a.rows|];
       && row.position == b.currentStep && row.wait == wait && row.outcome == StepRunning
       && row.startedAt == at && row.finishedAt == None && row.command == None
  }

  // ---------- Every transaction keeps the invariant ----------

  lemma NewRunOk(run: Run)
    requires run.rows == [] && run.currentStep == 0 && run.resumeAt == None
    requires !run.status.Waiting? && !run.status.Succeeded? && (run.finishedAt.None? <==> run.status.Running?)
    ensures RunOk(run)
  {
  }

  lemma InsertKeeps(t: Table, automation: int, steps: seq<Step>, status: RunStatus, startedAt: Instant,
                    finishedAt: Option<Instant>)
    requires TableOk(t)
    requires !status.Waiting? && !status.Succeeded?
    requires finishedAt.None? <==> status.Running?
    requires status.Running? ==> ActiveRuns(t, automation) == {}
    ensures TableOk(InsertRun(t, automation, steps, status, startedAt, finishedAt))
    ensures Evolves(t, InsertRun(t, automation, steps, status, startedAt, finishedAt))
    ensures var after := InsertRun(t, automation, steps, status, startedAt, finishedAt);
            && IsNewRun(after, t.nextId, automation, steps, startedAt)
            && after.runs[t.nextId].status == status && after.runs[t.nextId].finishedAt == finishedAt
            && after.nextId == t.nextId + 1 && SameRunsBut(t, after, {t.nextId})
  {
    var after := InsertRun(t, automation, steps, status, startedAt, finishedAt);
    NewRunOk(after.runs[t.nextId]);
    hide RunOk, RunEvolves;
    forall id | id in t.runs ensures RunEvolves(t.runs[id], after.runs[id]) {
      RunEvolvesReflexive(t.runs[id]);
    }
    forall i, j | IsActive(after, i) && IsActive(after, j) && after.runs[i].automation == after.runs[j].automation
      ensures i == j
    {
      if i != t.nextId && j != t.nextId {
        assert IsActive(t, i) && IsActive(t, j);
      } else {
        assert i != t.nextId ==> i !in ActiveRuns(t, automation);
        assert j != t.nextId ==> j !in ActiveRuns(t, automation);
      }
    }
  }

  lemma CancelledRunKeeps(run: Run, at: Instant)
    requires RunOk(run) && Active(run.status)
    ensures RunOk(CancelledRun(run, at)) && RunEvolves(run, CancelledRun(run, at))
    ensures AllSucceeded(run.rows) ==> CancelledRun(run, at).rows == run.rows
    ensures EndedEarly(run, CancelledRun(run, at), at)
  {
  }

  lemma CancelAllKeeps(t: Table, ids: set<int>, at: Instant)
    requires TableOk(t)
    requires forall id :: id in ids ==> IsActive(t, id)
    ensures TableOk(CancelAll(t, ids, at)) && Evolves(t, CancelAll(t, ids, at))
    ensures forall id :: IsActive(CancelAll(t, ids, at), id) <==> IsActive(t, id) && id !in ids
    ensures CancelAll(t, ids, at).nextId == t.nextId && SameRunsBut(t, CancelAll(t, ids, at), ids)
    ensures forall id :: id in ids ==> id in t.runs && id in CancelAll(t, ids, at).runs
                                       && EndedEarly(t.runs[id], CancelAll(t, ids, at).runs[id], at)
  {
    hide RunOk, RunEvolves, RowEndedEarly, CancelledRun;
    var after := CancelAll(t, ids, at);
    forall id | id in t.runs ensures id < t.nextId && RunOk(after.runs[id]) && RunEvolves(t.runs[id], after.runs[id]) {
      if id in ids {
        assert IsActive(t, id);
        CancelledRunKeeps(t.runs[id], at);
      } else {
        RunEvolvesReflexive(t.runs[id]);
      }
    }
    forall id | id in ids ensures EndedEarly(t.runs[id], after.runs[id], at) {
      assert IsActive(t, id);
      CancelledRunKeeps(t.runs[id], at);
    }
    forall id ensures IsActive(after, id) <==> IsActive(t, id) && id !in ids {}
    assert OneActiveRunPerAutomation(after) by {
      assert forall i :: IsActive(after, i) ==> IsActive(t, i) && after.runs[i].automation == t.runs[i].automation;
    }
  }

  /** Admission never leaves an automation with two active runs, in either mode. */
  lemma AdmitKeeps(t: Table, automation: int, steps: seq<Step>, mode: Mode, at: Instant)
    requires TableOk(t)
    ensures var (after, admission) := AdmitRun(t, automation, steps, mode, at);
            && TableOk(after) && Evolves(t, after)
            && admission.run !in t.runs && admission.run == t.nextId && after.nextId == t.nextId + 1
            && admission.run in after.runs && after.runs[admission.run].status == admission.status
            && (forall id :: IsActive(after, id) <==>
                  (IsActive(t, id) && id !in admission.cancelled) || (id == admission.run && admission.status.Running?))
            && (admission.status.Running? ==> ActiveRuns(after, automation) == {admission.run})
            && (admission.status.Skipped? <==> mode.Single? && ActiveRuns(t, automation) != {})
            && (admission.status.Running? || admission.status.Skipped?)
            && IsNewRun(after, admission.run, automation, steps, at)
            && after.runs[admission.run].finishedAt == (if admission.status.Skipped? then Some(at) else None)
            && SameRunsBut(t, after, admission.cancelled + {admission.run})
            && admission.cancelled == (if mode.Restart? then ActiveRuns(t, automation) else {})
            && forall id :: id in admission.cancelled ==>
                              id in t.runs && id in after.runs && EndedEarly(t.runs[id], after.runs[id], at)
  {
    hide RunOk, RunEvolves, RowEndedEarly, CancelledRun;
    var active := ActiveRuns(t, automation);
    var (after, admission) := AdmitRun(t, automation, steps, mode, at);
    if active == {} {
      InsertKeeps(t, automation, steps, Running, at, None);
      assert forall id :: id in ActiveRuns(after, automation) ==> id == admission.run;
    } else if mode.Restart? {
      var cleared := CancelAll(t, active, at);
      CancelAllKeeps(t, active, at);
      assert ActiveRuns(cleared, automation) == {} by {
        forall id ensures id !in ActiveRuns(cleared, automation) {
          assert IsActive(cleared, id) ==> IsActive(t, id) && id !in active;
        }
      }
      InsertKeeps(cleared, automation, steps, Running, at, None);
      EvolvesTransitive(t, cleared, after);
      assert forall id :: id in ActiveRuns(after, automation) ==> id == admission.run;
      forall id
        ensures IsActive(after, id) <==> (IsActive(t, id) && id !in admission.cancelled) || id == admission.run
      {
        assert id != t.nextId ==> (IsActive(after, id) <==> IsActive(cleared, id));
      }
    } else {
      InsertKeeps(t, automation, steps, Skipped, at, Some(at));
    }
  }

  /** Replacing one run by a later state of it, with no new activity, keeps the table's invariant. */
  lemma UpdateKeeps(t: Table, id: int, run: Run)
    requires TableOk(t) && id in t.runs
    requires RunOk(run) && RunEvolves(t.runs[id], run)
    requires Active(run.status) ==> Active(t.runs[id].status)
    ensures TableOk(t.(runs := t.runs[id := run])) && Evolves(t, t.(runs := t.runs[id := run]))
  {
    var after := t.(runs := t.runs[id := run]);
    assert run.automation == t.runs[id].automation;
    hide RunOk, RunEvolves;
    forall other | other in t.runs && other != id ensures RunEvolves(t.runs[other], after.runs[other]) {
      RunEvolvesReflexive(t.runs[other]);
    }
    forall i, j | IsActive(after, i) && IsActive(after, j) && after.runs[i].automation == after.runs[j].automation
      ensures i == j
    {
      assert IsActive(t, i) && IsActive(t, j);
    }
  }

  /** Starting the step after the last, once all so far have succeeded. */
  lemma StartedRunKeeps(run: Run, position: Position, at: Instant)
    requires RunOk(run) && run.status.Running? && AllSucceeded(run.rows)
    requires position == run.currentStep + 1 <= |run.steps| && run.steps[position - 1].Set?
    ensures var after := StartedRun(run, position, false, at);
            && RunOk(after) && RunEvolves(run, after)
            && OneMoreStarted(run, after, false, at) && after.status == Running && after.resumeAt == None
  {
  }

  lemma WaitingRunKeeps(run: Run, position: Position, at: Instant, resumeAt: Instant)
    requires RunOk(run) && run.status.Running? && AllSucceeded(run.rows)
    requires position == run.currentStep + 1 <= |run.steps| && run.steps[position - 1].Wait?
    requires resumeAt == WaitUntil(at, run.steps[position - 1])
    ensures var after := WaitingRun(run, position, at, resumeAt);
            && RunOk(after) && RunEvolves(run, after)
            && OneMoreStarted(run, after, true, at) && after.status == Waiting && after.resumeAt == Some(resumeAt)
  {
  }

  /**
   Resuming needs no more of its caller than to wait for the time: although its
   update of the step rows is unguarded, the one row it touches is the unfinished wait.
   */
  lemma ResumedRunKeeps(run: Run, at: Instant)
    requires RunOk(run) && run.status.Waiting? && run.resumeAt.value <= at
    ensures var after := ResumedRun(run, at);
            && RunOk(after) && RunEvolves(run, after)
            && AllSucceeded(after.rows)
            && run.rows != [] && run.rows[|run.rows| - 1].outcome.StepRunning?
            && after.rows[..|run.rows| - 1] == run.rows[..|run.rows| - 1]
            && |after.rows| == |run.rows| && after.rows[|run.rows| - 1].finishedAt == Some(at)
            && after.status == Running && after.startedAt == run.startedAt && after.currentStep == run.currentStep
  {
  }

  /**
   Finishing the newest step, which is no wait: those are finished by resuming. A step already over
   keeps its outcome.
   */
  lemma RowFinishedKeeps(run: Run, index: nat, outcome: StepOutcome, command: Option<int>, at: Instant)
    requires RunOk(run) && (outcome.StepSucceeded? || outcome.StepFailed?)
    requires index == |run.rows| - 1 && !run.rows[index].wait
    ensures var after := RowFinished(run, index, outcome, command, at);
            && RunOk(after) && RunEvolves(run, after)
            && |after.rows| == |run.rows| && (forall i :: 0 <= i < index ==> after.rows[i] == run.rows[i])
            && after.rows[index].command == command
            && (if Active(run.status) && run.rows[index].outcome == StepRunning then
                  after.rows[index].outcome == outcome && after.rows[index].finishedAt == Some(at)
                else
                  after.rows[index].outcome == run.rows[index].outcome
                  && after.rows[index].finishedAt == run.rows[index].finishedAt)
            && after.status == run.status && after.finishedAt == run.finishedAt && after.resumeAt == run.resumeAt
            && after.startedAt == run.startedAt && after.currentStep == run.currentStep
  {
  }

  /** A cancel is refused for another automation's run and for one that is over, and otherwise ends the run. */
  lemma CancelDecides(t: Table, automation: int, id: int, at: Instant)
    requires TableOk(t)
    ensures match CancelRun(t, automation, id, at)
            case CancelRefused(RunNotFound) => id in t.runs ==> t.runs[id].automation != automation
            case CancelRefused(RunNotActive) =>
              && id in t.runs && t.runs[id].automation == automation
              && t.runs[id].status != Running && t.runs[id].status != Waiting
            case CancelOk(after) =>
              && id in t.runs && t.runs[id].automation == automation
              && (t.runs[id].status == Running || t.runs[id].status == Waiting)
              && TableOk(after) && Evolves(t, after) && after.nextId == t.nextId && SameRunsBut(t, after, {id})
              && id in after.runs && EndedEarly(t.runs[id], after.runs[id], at)
  {
    if IsActive(t, id) {
      CancelAllKeeps(t, {id}, at);
    }
  }

  lemma FinishedRunKeeps(run: Run, status: RunStatus, at: Instant)
    requires RunOk(run) && run.status.Running?
    requires (status.Succeeded? && run.currentStep == |run.steps| && AllSucceeded(run.rows))
          || (status.Failed? && run.rows != [] && run.rows[|run.rows| - 1].outcome.StepFailed?)
    ensures var after := run.(status := status, finishedAt := Some(at)); RunOk(after) && RunEvolves(run, after)
  {
  }

  /** Each transaction takes hold of no run but its own, and of that only in the one status it is for. */
  lemma OtherRunsAreLeft(t: Table, id: int, position: Position, index: nat, outcome: StepOutcome, command: Option<int>,
                         status: RunStatus, at: Instant, resumeAt: Instant)
    ensures StartRunStep(t, id, position, at).Some? <==> id in t.runs && t.runs[id].status == Running
    ensures WaitRun(t, id, position, at, resumeAt).Some? <==> id in t.runs && t.runs[id].status == Running
    ensures ResumeRun(t, id, at).Some? <==> id in t.runs && t.runs[id].status == Waiting
    ensures FinishRun(t, id, status, at).Some? <==> id in t.runs && t.runs[id].status == Running
    ensures forall after
              | StartRunStep(t, id, position, at) == Some(after) || FinishRun(t, id, status, at) == Some(after)
                           || WaitRun(t, id, position, at, resumeAt) == Some(after)
                           || ResumeRun(t, id, at) == Some(after) ::
              SameRunsBut(t, after, {id}) && id in after.runs && after.nextId == t.nextId
    ensures var after := FinishRunStep(t, id, index, outcome, command, at);
            SameRunsBut(t, after, {id}) && (id in t.runs <==> id in after.runs) && after.nextId == t.nextId
  {
    hide StartedRun, WaitingRun, ResumedRun, RowFinished;
  }

  /** The end given is what is recorded, at the moment given, and what the run did stands. */
  lemma FinishRunCloses(t: Table, id: int, status: RunStatus, at: Instant)
    requires id in t.runs && t.runs[id].status == Running
    ensures FinishRun(t, id, status, at).Some?
    ensures var (a, b) := (t.runs[id], FinishRun(t, id, status, at).value.runs[id]);
            && b.status == status && b.finishedAt == Some(at)
            && b.rows == a.rows && b.currentStep == a.currentStep && b.steps == a.steps
            && b.automation == a.automation && b.startedAt == a.startedAt && b.resumeAt == a.resumeAt
  {
  }

  lemma DeleteRunsKeeps(t: Table, ids: set<int>)
    requires TableOk(t)
    ensures TableOk(DeleteRuns(t, ids)) && Evolves(t, DeleteRuns(t, ids))
    ensures SameRunsBut(t, DeleteRuns(t, ids), ids) && forall id :: id in ids ==> id !in DeleteRuns(t, ids).runs
  {
    var after := DeleteRuns(t, ids);
    forall i, j | IsActive(after, i) && IsActive(after, j) && after.runs[i].automation == after.runs[j].automation
      ensures i == j
    {
      assert IsActive(t, i) && IsActive(t, j);
    }
  }
}
