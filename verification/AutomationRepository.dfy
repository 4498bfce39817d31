/** The automation store: run and step rows updated in place, one transaction a method. */
module AutomationStore {
  import opened Wrappers
  import opened RunTable

  lemma CancelledOneByOne(t: Table, done: set<int>, id: int, at: Instant)
    requires id !in done
    ensures CancelAll(CancelAll(t, done, at), {id}, at) == CancelAll(t, done + {id}, at)
  {
    assert CancelAll(CancelAll(t, done, at), {id}, at).runs == CancelAll(t, done + {id}, at).runs;
  }

  lemma CancelNone(t: Table, at: Instant)
    ensures CancelAll(t, {}, at) == t
  {
    assert CancelAll(t, {}, at).runs == t.runs;
  }

  /** The run ended, and before the cutoff. */
  ghost predicate LongOver(run: Run, cutoff: Instant) {
    run.status != Running && run.status != Waiting && run.finishedAt.Some? && run.finishedAt.value < cutoff
  }

  function EndedBefore(t: Table, cutoff: Instant): set<int> {
    set id | id in t.runs && !Active(t.runs[id].status) && t.runs[id].finishedAt.Some?
      && t.runs[id].finishedAt.value < cutoff
  }

  class AutomationRepository {
    var runs: map<int, Run>
    var nextId: int

    ghost function Contents(): Table
      reads this
    {
      Table(runs, nextId)
    }

    constructor ()
      ensures Contents() == Table(map[], 1) && TableOk(Contents())
    {
      runs, nextId := map[], 1;
    }

    method CreateRun(automation: int, steps: seq<Step>, status: RunStatus, startedAt: Instant,
                     finishedAt: Option<Instant>) returns (id: int)
      modifies this
      ensures id == old(nextId)
              && Contents() == InsertRun(old(Contents()), automation, steps, status, startedAt, finishedAt)
      ensures IsNewRun(Contents(), id, automation, steps, startedAt) && SameRunsBut(old(Contents()), Contents(), {id})
      ensures runs[id].status == status && runs[id].finishedAt == finishedAt
    {
      id := nextId;
      runs := runs[id := Run(automation, status, 0, steps, startedAt, finishedAt, None, [])];
      nextId := nextId + 1;
    }

    method ActiveRunIds(automation: int) returns (ids: set<int>)
      ensures ids == ActiveRuns(Contents(), automation)
    {
      ids := {};
      var left := runs.Keys;
      while left != {}
        invariant left <= runs.Keys
        invariant ids == set id | id in ActiveRuns(Contents(), automation) && id !in left
      {
        EmptyOrHasMember(left);
        var id :| id in left;
        left := left - {id};
        if runs[id].automation == automation && (runs[id].status.Running? || runs[id].status.Waiting?) {
          ids := ids + {id};
        }
      }
    }

    /** The run's row first, then those of its steps that are still running. */
    method CancelOne(id: int, at: Instant)
      requires id in runs
      modifies this`runs
      ensures Contents() == CancelAll(old(Contents()), {id}, at)
    {
      var run := runs[id];
      var rows := [];
      for i := 0 to |run.rows|
        invariant |rows| == i && forall j :: 0 <= j < i ==> rows[j] == CancelRow(run.rows[j], at)
      {
        var row := run.rows[i];
        if row.outcome.StepRunning? {
          row := row.(outcome := StepCancelled, finishedAt := Some(at));
        }
        rows := rows + [row];
      }
      assert rows == CancelRows(run.rows, at);
      runs := runs[id := run.(status := Cancelled, finishedAt := Some(at), resumeAt := None, rows := rows)];
      assert runs == CancelAll(old(Contents()), {id}, at).runs;
    }

    /** A new run, in place of the active ones in restart mode, and skipped on their account in single mode. */
    method AdmitRun(automation: int, steps: seq<Step>, mode: Mode, at: Instant) returns (admission: Admission)
      modifies this
      ensures Contents() == RunTable.AdmitRun(old(Contents()), automation, steps, mode, at).0
      ensures admission == RunTable.AdmitRun(old(Contents()), automation, steps, mode, at).1
      ensures IsNewRun(Contents(), admission.run, automation, steps, at)
      ensures admission.run == old(nextId) && runs[admission.run].status == admission.status
    {
      hide SameRunsBut;
      var active := ActiveRunIds(automation);
      var status, finishedAt := Running, None;
      var cancelled := {};
      CancelNone(Contents(), at);
      if active == {} {
      } else if mode.Restart? {
        var left := active;
        while left != {}
          invariant left <= active && cancelled == active - left
          invariant runs.Keys == old(runs).Keys && nextId == old(nextId)
          invariant Contents() == CancelAll(old(Contents()), cancelled, at)
        {
          EmptyOrHasMember(left);
          var id :| id in left;
          CancelledOneByOne(old(Contents()), cancelled, id, at);
          CancelOne(id, at);
          left := left - {id};
          cancelled := cancelled + {id};
        }
        assert cancelled == active;
      } else {
        status, finishedAt := Skipped, Some(at);
      }
      var id := CreateRun(automation, steps, status, at, finishedAt);
      admission := Admission(id, status, cancelled);
    }

    method CancelRun(automation: int, id: int, at: Instant) returns (error: Option<CancelError>)
      modifies this`runs
      ensures match RunTable.CancelRun(old(Contents()), automation, id, at)
              case CancelOk(table) => error == None && Contents() == table
              case CancelRefused(reason) => error == Some(reason) && Contents() == old(Contents())
      ensures error == Some(RunNotFound) <==> id !in old(runs) || old(runs)[id].automation != automation
      ensures error == None <==>
                && id in old(runs) && old(runs)[id].automation == automation
                && (old(runs)[id].status == Running || old(runs)[id].status == Waiting)
    {
      if id !in runs || runs[id].automation != automation {
        return Some(RunNotFound);
      }
      if !runs[id].status.Running? && !runs[id].status.Waiting? {
        return Some(RunNotActive);
      }
      CancelOne(id, at);
      error := None;
    }

    /** The index of the new step row, or None when the run is no longer running. */
    method StartRunStep(id: int, position: Position, at: Instant) returns (index: Option<nat>)
      modifies this`runs
      ensures match RunTable.StartRunStep(old(Contents()), id, position, at)
              case None => index == None && Contents() == old(Contents())
              case Some(table) => index == Some(|old(runs)[id].rows|) && Contents() == table
    {
      if id !in runs || !runs[id].status.Running? {
        return None;
      }
      var run := runs[id].(currentStep := position);
      index := Some(|run.rows|);
      runs := runs[id := run.(rows := run.rows + [StepRow(position, false, StepRunning, None, at, None)])];
    }

    /** The row takes the command whatever has become of it, and the outcome only while it has none. */
    method FinishRunStep(id: int, index: nat, outcome: StepOutcome, command: Option<int>, at: Instant)
      modifies this`runs
      ensures Contents() == RunTable.FinishRunStep(old(Contents()), id, index, outcome, command, at)
    {
      if id in runs && index < |runs[id].rows| {
        var row := runs[id].rows[index].(command := command);
        if row.outcome.StepRunning? {
          row := row.(outcome := outcome, finishedAt := Some(at));
        }
        runs := runs[id := runs[id].(rows := runs[id].rows[index := row])];
      }
    }

    method WaitRun(id: int, position: Position, at: Instant, resumeAt: Instant) returns (gone: bool)
      modifies this`runs
      ensures match RunTable.WaitRun(old(Contents()), id, position, at, resumeAt)
              case None => gone && Contents() == old(Contents())
              case Some(table) => !gone && Contents() == table
    {
      gone := id !in runs || !runs[id].status.Running?;
      if !gone {
        var run := runs[id].(status := Waiting, currentStep := position, resumeAt := Some(resumeAt));
        runs := runs[id := run.(rows := run.rows + [StepRow(position, true, StepRunning, None, at, None)])];
      }
    }

    /** Sets the run running, then finishes every row at its current step. */
    method ResumeRun(id: int, at: Instant) returns (gone: bool)
      modifies this`runs
      ensures match RunTable.ResumeRun(old(Contents()), id, at)
              case None => gone && Contents() == old(Contents())
              case Some(table) => !gone && Contents() == table
    {
      gone := id !in runs || !runs[id].status.Waiting?;
      if !gone {
        var run := runs[id];
        var rows := [];
        for i := 0 to |run.rows|
          invariant |rows| == i && forall j :: 0 <= j < i ==> rows[j] == ResumeRow(run.rows[j], run.currentStep, at)
        {
          var row := run.rows[i];
          if row.position == run.currentStep {
            row := row.(outcome := StepSucceeded, finishedAt := Some(at));
          }
          rows := rows + [row];
        }
        assert rows == ResumeRows(run.rows, run.currentStep, at);
        runs := runs[id := run.(status := Running, resumeAt := None, rows := rows)];
      }
    }

    method FinishRun(id: int, status: RunStatus, at: Instant) returns (gone: bool)
      modifies this`runs
      ensures match RunTable.FinishRun(old(Contents()), id, status, at)
              case None => gone && Contents() == old(Contents())
              case Some(table) => !gone && Contents() == table
    {
      gone := id !in runs || !runs[id].status.Running?;
      if !gone {
        runs := runs[id := runs[id].(status := status, finishedAt := Some(at))];
      }
    }

    /** Runs go with their automations, such as when a sensor these use is deleted. */
    method DeleteRunsOf(automations: set<int>)
      modifies this`runs
      ensures Contents() == DeleteRuns(old(Contents()), RunsOf(old(Contents()), automations))
      ensures forall id :: id in runs <==> id in old(runs) && old(runs)[id].automation !in automations
      ensures forall id :: id in runs ==> runs[id] == old(runs)[id]
    {
      runs := runs - RunsOf(Table(runs, nextId), automations);
    }

    /** Retention: runs that ended before the cutoff go, active ones never. */
    method DeleteRunsFinishedBefore(cutoff: Instant) returns (deleted: nat)
      modifies this`runs
      ensures Contents() == DeleteRuns(old(Contents()), EndedBefore(old(Contents()), cutoff))
      ensures deleted == |EndedBefore(old(Contents()), cutoff)|
      ensures forall id :: id in runs <==> id in old(runs) && !LongOver(old(runs)[id], cutoff)
      ensures forall id :: id in runs ==> runs[id] == old(runs)[id]
    {
      var ended := EndedBefore(Table(runs, nextId), cutoff);
      runs := runs - ended;
      deleted := |ended|;
    }
  }
}
