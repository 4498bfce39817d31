/**
 One executor at work on the store: the loop over a run's steps, from where it
 stands to where it waits, fails, ends, or is stopped.
 */
module Executors {
  import opened Wrappers
  import opened RunTable
  import opened AutomationStore
  import RunProtocol
  import RunInvariant

  /** How sending a step's command, or taking the outcome of one sent before, turned out. */
  datatype SetResult = SetResult(command: Option<int>, ok: bool, interrupted: bool)

  /** What others may do to the run between two of the executor's steps. */
  datatype Interference = Nothing | Cancel | Delete

  /**
   What the executor cannot decide: the time, the commands recorded before it
   started and what becomes of them, how each step it sends turns out, whether it is
   stopped while it waits for a command that a cancelled run left in flight, and what
   others do before each of its store calls.
   */
  datatype World = World(
    times: nat -> Instant,
    commands: seq<RunProtocol.Command>,
    outcomes: nat -> SetResult,
    sends: nat -> SetResult,
    heldUp: nat -> bool,
    others: nat -> Interference)

  /** What a set step comes to: an interrupted one takes the outcome of the command it sent, if it sent one. */
  ghost function ResultAt(start: Run, id: int, position: nat, world: World): SetResult
    requires 1 <= position
  {
    if position == |start.rows| && position <= |start.steps| then
      match RunProtocol.LatestRunCommand(world.commands, id, start.steps[position - 1],
                                         start.rows[position - 1].startedAt)
      case None => world.sends(position)
      case Some(command) => world.outcomes(command).(command := Some(command))
    else world.sends(position)
  }

  /** Somebody has cancelled the run or deleted it. */
  /** A command the run sent for what the step sets, since the step started. */
  ghost predicate SentFor(command: RunProtocol.Command, id: int, step: Step, since: Instant) {
    && step.Set? && command.run == Some(id) && command.sensor == step.sensor && command.property == step.property
    && command.sentAt >= since
  }

  /**
   The step the run stood at takes what its newest command came to, if it sent one; it is sent if
   not, as are all later steps.
   */
  lemma ResultsFollow(start: Run, id: int, position: nat, world: World)
    requires 1 <= position
    ensures var result := ResultAt(start, id, position, world);
            if position == |start.rows| && position <= |start.steps|
               && (exists c: nat :: c < |world.commands|
                                    && SentFor(world.commands[c], id, start.steps[position - 1],
                                               start.rows[position - 1].startedAt))
            then
              && result.command.Some? && 0 <= result.command.value < |world.commands|
              && var c := result.command.value;
                 var since := start.rows[position - 1].startedAt;
                 && SentFor(world.commands[c], id, start.steps[position - 1], since)
                 && result.ok == world.outcomes(c).ok && result.interrupted == world.outcomes(c).interrupted
                 && forall other: nat :: other < |world.commands|
                                         && SentFor(world.commands[other], id, start.steps[position - 1], since) ==>
                      world.commands[other].sentAt <= world.commands[c].sentAt
            else result == world.sends(position)
  {
    if position == |start.rows| && position <= |start.steps| {
      var (step, since) := (start.steps[position - 1], start.rows[position - 1].startedAt);
      assert forall c: nat :: c < |world.commands| ==>
               (SentFor(world.commands[c], id, step, since) <==>
                  RunProtocol.Matches(world.commands[c], id, step, since));
    }
  }

  ghost predicate Gone(t: Table, id: int) {
    id in t.runs ==> t.runs[id].status.Cancelled?
  }

  /** The run is ready for the step at a position, or gone. */
  ghost predicate ReadyFor(t: Table, id: int, position: nat) {
    Gone(t, id) || (t.runs[id].status.Running? && AllSucceeded(t.runs[id].rows) && position == |t.runs[id].rows| + 1)
  }

  /** The step at a position has started and is not over, or the run is gone. */
  ghost predicate AtStep(t: Table, id: int, position: nat) {
    && 1 <= position
    && (id in t.runs ==>
          var run := t.runs[id];
          && position == |run.rows| && !run.rows[position - 1].wait
          && (run.status.Cancelled? || (run.status.Running? && run.rows[position - 1].outcome.StepRunning?)))
  }

  ghost predicate FailedAt(t: Table, id: int, position: nat) {
    || Gone(t, id)
    || (1 <= position == |t.runs[id].rows| && t.runs[id].status.Running?
        && t.runs[id].rows[position - 1].outcome.StepFailed?)
  }

  /** The run is gone, or stopped before a step or at one, with nothing of it undone. */
  ghost predicate Stopped(t: Table, id: int, start: Run, world: World) {
    || Gone(t, id)
    || (t.runs[id].status.Running? && AllSucceeded(t.runs[id].rows) && world.heldUp(|t.runs[id].rows| + 1))
    || (t.runs[id].status.Running? && AtStep(t, id, |t.runs[id].rows|)
        && ResultAt(start, id, |t.runs[id].rows|, world).interrupted)
  }

  /**
   No step is passed over: each set step settled since the executor started has the outcome and the
   command of its own, and no wait is over.
   */
  ghost predicate Follows(start: Run, id: int, run: Run, world: World) {
    forall i :: 0 <= i < |run.rows| ==> RowFollows(start, id, run.rows[i], i, world)
  }

  ghost predicate RowFollows(start: Run, id: int, row: StepRow, i: nat, world: World) {
    || (i < |start.rows| && !start.rows[i].outcome.StepRunning? && row.outcome == start.rows[i].outcome)
    || row.outcome.StepRunning? || row.outcome.StepCancelled?
    || (!row.wait && row.command == ResultAt(start, id, i + 1, world).command
        && row.outcome == if ResultAt(start, id, i + 1, world).ok then StepSucceeded else StepFailed)
  }

  /** The store as the executor needs it, changed since it started only as stores may change. */
  ghost predicate Kept(before: Table, t: Table, id: int, world: World) {
    && TableOk(before) && TableOk(t) && Evolves(before, t)
    && id in before.runs
    && (id in t.runs ==> Follows(before.runs[id], id, t.runs[id], world))
  }

  // ---------- What each store call keeps ----------

  lemma UpdateKept(before: Table, t: Table, id: int, run: Run, world: World)
    requires Kept(before, t, id, world) && id in t.runs && RunOk(run) && RunEvolves(t.runs[id], run)
    requires Active(run.status) ==> Active(t.runs[id].status)
    requires Follows(before.runs[id], id, run, world)
    ensures Kept(before, t.(runs := t.runs[id := run]), id, world)
  {
    UpdateKeeps(t, id, run);
    EvolvesTransitive(before, t, t.(runs := t.runs[id := run]));
  }

  lemma CancelKept(before: Table, t: Table, id: int, at: Instant, world: World)
    requires Kept(before, t, id, world) && id in t.runs && Active(t.runs[id].status)
    ensures Kept(before, CancelAll(t, {id}, at), id, world)
  {
    assert IsActive(t, id);
    CancelAllKeeps(t, {id}, at);
    var after := CancelAll(t, {id}, at);
    EvolvesTransitive(before, t, after);
    forall i | 0 <= i < |after.runs[id].rows|
      ensures RowFollows(before.runs[id], id, after.runs[id].rows[i], i, world)
    {
      assert RowFollows(before.runs[id], id, t.runs[id].rows[i], i, world);
    }
  }

  lemma DeleteKept(before: Table, t: Table, id: int, ids: set<int>, world: World)
    requires Kept(before, t, id, world)
    ensures Kept(before, DeleteRuns(t, ids), id, world)
  {
    DeleteRunsKeeps(t, ids);
    EvolvesTransitive(before, t, DeleteRuns(t, ids));
  }

  lemma StartKept(before: Table, t: Table, id: int, position: Position, wait: bool, at: Instant, world: World)
    requires Kept(before, t, id, world) && id in t.runs && t.runs[id].status.Running? && ReadyFor(t, id, position)
    requires position <= |t.runs[id].steps| && t.runs[id].steps[position - 1].Wait? == wait
    ensures wait ==> var run := WaitingRun(t.runs[id], position, at, WaitUntil(at, t.runs[id].steps[position - 1]));
                     Kept(before, t.(runs := t.runs[id := run]), id, world)
    ensures !wait ==> var t' := t.(runs := t.runs[id := StartedRun(t.runs[id], position, false, at)]);
                      Kept(before, t', id, world) && AtStep(t', id, position)
  {
    var run := t.runs[id];
    forall i | 0 <= i < |run.rows| ensures RowFollows(before.runs[id], id, run.rows[i], i, world) {}
    if wait {
      var resumeAt := WaitUntil(at, run.steps[position - 1]);
      WaitingRunKeeps(run, position, at, resumeAt);
      UpdateKept(before, t, id, WaitingRun(run, position, at, resumeAt), world);
    } else {
      StartedRunKeeps(run, position, at);
      UpdateKept(before, t, id, StartedRun(run, position, false, at), world);
    }
  }

  lemma InterruptedStops(t: Table, id: int, position: nat, start: Run, world: World)
    requires AtStep(t, id, position) && ResultAt(start, id, position, world).interrupted
    ensures Stopped(t, id, start, world)
  {
    hide ResultAt;
  }

  lemma FinishKept(before: Table, t: Table, id: int, position: nat, at: Instant, world: World)
    requires Kept(before, t, id, world) && AtStep(t, id, position)
    ensures var result := ResultAt(before.runs[id], id, position, world);
            var t' := FinishRunStep(t, id, position - 1, if result.ok then StepSucceeded else StepFailed,
                                    result.command, at);
            && Kept(before, t', id, world)
            && if result.ok then ReadyFor(t', id, position + 1) else FailedAt(t', id, position)
  {
    if id in t.runs {
      var result := ResultAt(before.runs[id], id, position, world);
      var outcome := if result.ok then StepSucceeded else StepFailed;
      var run := RowFinished(t.runs[id], position - 1, outcome, result.command, at);
      RowFinishedKeeps(t.runs[id], position - 1, outcome, result.command, at);
      hide ResultAt;
      forall i | 0 <= i < |run.rows| ensures RowFollows(before.runs[id], id, run.rows[i], i, world) {
        assert RowFollows(before.runs[id], id, t.runs[id].rows[i], i, world);
      }
      UpdateKept(before, t, id, run, world);
    }
  }

  lemma CloseKept(before: Table, t: Table, id: int, status: RunStatus, at: Instant, world: World)
    requires Kept(before, t, id, world) && id in t.runs && t.runs[id].status.Running?
    requires (status.Succeeded? && |t.runs[id].rows| == |t.runs[id].steps| && AllSucceeded(t.runs[id].rows))
          || (status.Failed? && FailedAt(t, id, |t.runs[id].rows|))
    ensures Kept(before, t.(runs := t.runs[id := t.runs[id].(status := status, finishedAt := Some(at))]), id, world)
  {
    FinishedRunKeeps(t.runs[id], status, at);
    UpdateKept(before, t, id, t.runs[id].(status := status, finishedAt := Some(at)), world);
  }

  class Executor {
    const store: AutomationRepository
    const world: World
    var calls: nat

    constructor (store: AutomationRepository, world: World)
      ensures this.store == store && this.world == world
    {
      this.store, this.world, calls := store, world, 0;
    }

    method Now() returns (at: Instant)
      modifies this`calls
    {
      at := world.times(calls);
      calls := calls + 1;
    }

    /** Somebody else may cancel the run, or delete its automation, between two of the executor's steps. */
    method Others(id: int, ghost before: Table)
      requires Kept(before, store.Contents(), id, world)
      modifies this`calls, store`runs
      ensures Kept(before, store.Contents(), id, world)
      ensures Gone(store.Contents(), id) || (id in old(store.runs) && store.runs[id] == old(store.runs[id]))
      ensures forall position {:trigger AtStep(store.Contents(), id, position)} ::
                old(AtStep(store.Contents(), id, position)) ==> AtStep(store.Contents(), id, position)
    {
      var others := world.others(calls);
      if others.Cancel? && id in store.runs && (store.runs[id].status.Running? || store.runs[id].status.Waiting?) {
        var at := Now();
        CancelKept(before, store.Contents(), id, at, world);
        var error := store.CancelRun(store.runs[id].automation, id, at);
      } else if others.Delete? && id in store.runs {
        var automations := {store.runs[id].automation};
        DeleteKept(before, store.Contents(), id, RunsOf(store.Contents(), automations), world);
        store.DeleteRunsOf(automations);
      }
    }

    method ExecuteStep(id: int, position: Position, ghost before: Table) returns (ok: bool, finished: bool)
      requires Kept(before, store.Contents(), id, world) && ReadyFor(store.Contents(), id, position)
      requires position <= |before.runs[id].steps| && before.runs[id].steps[position - 1].Set?
               && position > |before.runs[id].rows|
      modifies this`calls, store`runs
      ensures Kept(before, store.Contents(), id, world)
      ensures !finished ==> Stopped(store.Contents(), id, before.runs[id], world)
      ensures finished ==>
                if ok then ReadyFor(store.Contents(), id, position + 1) else FailedAt(store.Contents(), id, position)
    {
      StepsStay(before, store.Contents(), id, world);
      if world.heldUp(position) {
        return false, false;
      }
      Others(id, before);
      StepsStay(before, store.Contents(), id, world);
      var at := Now();
      if id in store.runs && store.runs[id].status.Running? {
        StartKept(before, store.Contents(), id, position, false, at, world);
      }
      var index := store.StartRunStep(id, position, at);
      if index.None? {
        return false, false;
      }
      ok, finished := FinishStep(id, position, world.sends(position), before);
    }

    method FinishStep(id: int, position: Position, result: SetResult, ghost before: Table)
      returns (ok: bool, finished: bool)
      requires Kept(before, store.Contents(), id, world) && AtStep(store.Contents(), id, position)
      requires result == ResultAt(before.runs[id], id, position, world)
      modifies this`calls, store`runs
      ensures Kept(before, store.Contents(), id, world)
      ensures !finished ==> Stopped(store.Contents(), id, before.runs[id], world)
      ensures finished ==>
                if ok then ReadyFor(store.Contents(), id, position + 1) else FailedAt(store.Contents(), id, position)
    {
      hide ResultAt, AtStep, FinishRunStep, Stopped, TableOk, Evolves, Follows;
      if result.interrupted {
        InterruptedStops(store.Contents(), id, position, before.runs[id], world);
        return false, false;
      }
      Others(id, before);
      var at := Now();
      FinishKept(before, store.Contents(), id, position, at, world);
      store.FinishRunStep(id, position - 1, if result.ok then StepSucceeded else StepFailed, result.command, at);
      ok, finished := result.ok, true;
    }

    /**
     The step the run stood at: done with, failed, or interrupted and settled now, by the command it
     sent or by sending one.
     */
    method SettleInterrupted(id: int, run: Run, last: StepRow, ghost before: Table) returns (ok: bool, finished: bool)
      requires Kept(before, store.Contents(), id, world) && before == store.Contents() && id in store.runs
               && run == store.runs[id] && run.status.Running?
      requires run.rows != [] && last == run.rows[|run.rows| - 1] && last.position == |run.rows|
      modifies this`calls, store`runs
      ensures Kept(before, store.Contents(), id, world)
      ensures !finished ==> Stopped(store.Contents(), id, run, world)
      ensures finished ==>
                if ok then ReadyFor(store.Contents(), id, last.position + 1)
                else FailedAt(store.Contents(), id, last.position)
    {
      StepsStay(before, store.Contents(), id, world);
      if last.outcome.StepSucceeded? {
        return true, true;
      }
      if last.outcome.StepFailed? {
        return false, true;
      }
      var result := world.sends(last.position);
      var recorded := RunProtocol.LatestRunCommand(world.commands, id, run.steps[last.position - 1], last.startedAt);
      if recorded.Some? {
        result := world.outcomes(recorded.value).(command := Some(recorded.value));
      }
      ok, finished := FinishStep(id, last.position, result, before);
    }

    method Close(id: int, status: RunStatus, ghost before: Table)
      requires Kept(before, store.Contents(), id, world)
      requires Gone(store.Contents(), id)
            || (store.runs[id].status.Running?
                && ((status.Succeeded? && |store.runs[id].rows| == |store.runs[id].steps|
                     && AllSucceeded(store.runs[id].rows))
                    || (status.Failed? && FailedAt(store.Contents(), id, |store.runs[id].rows|))))
      modifies this`calls, store`runs
      ensures Kept(before, store.Contents(), id, world)
      ensures Gone(store.Contents(), id) || store.runs[id].status == status
    {
      Others(id, before);
      var at := Now();
      if id in store.runs && store.runs[id].status.Running? {
        CloseKept(before, store.Contents(), id, status, at, world);
      }
      var gone := store.FinishRun(id, status, at);
    }

    method Wait(id: int, position: Position, step: Step, ghost before: Table) returns (resumeAt: Option<Instant>)
      requires Kept(before, store.Contents(), id, world) && ReadyFor(store.Contents(), id, position)
      requires position <= |before.runs[id].steps| && before.runs[id].steps[position - 1] == step && step.Wait?
      modifies this`calls, store`runs
      ensures Kept(before, store.Contents(), id, world)
      ensures if resumeAt.Some? then
                id in store.runs && store.runs[id].status.Waiting? && store.runs[id].resumeAt == resumeAt
              else Gone(store.Contents(), id)
    {
      Others(id, before);
      StepsStay(before, store.Contents(), id, world);
      var at := Now();
      if id in store.runs && store.runs[id].status.Running? {
        StartKept(before, store.Contents(), id, position, true, at, world);
      }
      var until := WaitUntil(at, step);
      var gone := store.WaitRun(id, position, at, until);
      resumeAt := if gone then None else Some(until);
    }

    /**
     Drives a run from its current step, which an executor before may have left
     unsettled. It leaves the run waiting at its first wait, failed at its first
     failed step, succeeded with every step done, stopped before or at a step, or as
     whoever cancelled or deleted it left it.
     */
    method Execute(id: int, run: Run) returns (resumeAt: Option<Instant>)
      requires TableOk(store.Contents()) && id in store.runs && store.runs[id] == run && run.status.Running?
      modifies this`calls, store`runs
      ensures TableOk(store.Contents()) && Evolves(old(store.Contents()), store.Contents())
      ensures id in store.runs ==> Follows(run, id, store.runs[id], world)
      ensures if resumeAt.Some? then
                id in store.runs && store.runs[id].status.Waiting? && store.runs[id].resumeAt == resumeAt
              else
                || Stopped(store.Contents(), id, run, world)
                || store.runs[id].status.Succeeded? || store.runs[id].status.Failed?
    {
      ghost var before := store.Contents();
      hide TableOk, Evolves, Stopped, ResultAt, Follows;
      StartsKept(before, id, world);
      var from: Position := 1;
      RunInvariant.CurrentRowIsLast(run);
      match RunProtocol.CurrentRow(run) {
        case Some(last) =>
          var ok, finished := SettleInterrupted(id, run, last, before);
          if !finished {
            return None;
          }
          if !ok {
            Close(id, Failed, before);
            GoneIsStopped(store.Contents(), id, run, world);
            return None;
          }
          from := last.position + 1;
        case None =>
      }
      var position := from;
      while position <= |run.steps|
        invariant |run.rows| < position <= |run.steps| + 1
        invariant Kept(before, store.Contents(), id, world) && ReadyFor(store.Contents(), id, position)
      {
        var step := run.steps[position - 1];
        if step.Wait? {
          resumeAt := Wait(id, position, step, before);
          GoneIsStopped(store.Contents(), id, run, world);
          return resumeAt;
        }
        var ok, finished := ExecuteStep(id, position, before);
        if !finished {
          return None;
        }
        if !ok {
          Close(id, Failed, before);
          GoneIsStopped(store.Contents(), id, run, world);
          return None;
        }
        position := position + 1;
      }
      StepsStay(before, store.Contents(), id, world);
      Close(id, Succeeded, before);
      GoneIsStopped(store.Contents(), id, run, world);
      resumeAt := None;
    }
  }

  lemma StartsKept(t: Table, id: int, world: World)
    requires TableOk(t) && id in t.runs && t.runs[id].status.Running?
    ensures Kept(t, t, id, world) && RunOk(t.runs[id])
  {
    EvolvesReflexive(t);
    forall i | 0 <= i < |t.runs[id].rows| ensures RowFollows(t.runs[id], id, t.runs[id].rows[i], i, world) {}
  }

  lemma StepsStay(before: Table, t: Table, id: int, world: World)
    requires Kept(before, t, id, world)
    ensures RunOk(before.runs[id]) && (id in t.runs ==> t.runs[id].steps == before.runs[id].steps && RunOk(t.runs[id]))
  {
  }

  lemma GoneIsStopped(t: Table, id: int, start: Run, world: World)
    ensures Gone(t, id) ==> Stopped(t, id, start, world)
  {
  }
}
