/** What holds over every history of the hub, however often it dies and starts again. */
module RunGuarantees {
  import opened Wrappers
  import opened RunTable
  import opened RunProtocol
  import opened RunInvariant

  // ---------- Every run of the hub ----------

  ghost predicate Init(h: Hub) {
    && h.table.runs == map[] && h.table.nextId > 0
    && h.commands == [] && h.threads == map[] && h.resumes == map[] && !h.up
  }

  /** States the hub passes through, with the action between each and the next. */
  ghost predicate History(states: seq<Hub>, actions: seq<Action>) {
    && |states| == |actions| + 1
    && Init(states[0])
    && forall i ::
         0 <= i < |actions| ==> Enabled(states[i], actions[i]) && states[i + 1] == Apply(states[i], actions[i])
  }

  lemma InitInv(h: Hub)
    requires Init(h)
    ensures Inv(h)
  {
  }

  lemma {:induction false} AlwaysInv(states: seq<Hub>, actions: seq<Action>, k: nat)
    requires History(states, actions) && k < |states|
    ensures Inv(states[k])
  {
    hide Inv;
    if k == 0 {
      InitInv(states[0]);
    } else {
      AlwaysInv(states, actions, k - 1);
      StepKeeps(states[k - 1], actions[k - 1]);
    }
  }

  /** Between any two moments of one history, crashes and restarts included, runs only evolve. */
  lemma {:induction false} AlwaysEvolves(states: seq<Hub>, actions: seq<Action>, j: nat, k: nat)
    requires History(states, actions) && j <= k < |states|
    ensures Evolves(states[j].table, states[k].table)
    decreases k
  {
    hide Inv, Evolves, TableOk;
    AlwaysInv(states, actions, j);
    TableFacts(states[j]);
    if j == k {
      EvolvesReflexive(states[j].table);
    } else {
      AlwaysEvolves(states, actions, j, k - 1);
      AlwaysInv(states, actions, k - 1);
      StepKeeps(states[k - 1], actions[k - 1]);
      EvolvesTransitive(states[j].table, states[k - 1].table, states[k].table);
    }
  }

  /**
   Steps start in order 1, 2, 3, ..., a step only starts once all before it have
   succeeded, and a run marked succeeded has a success at every position.
   */
  lemma StepsStartInOrder(states: seq<Hub>, actions: seq<Action>, k: nat, id: int)
    requires History(states, actions) && k < |states| && id in states[k].table.runs
    ensures var run := states[k].table.runs[id];
            && |run.rows| == run.currentStep <= |run.steps|
            && (forall i :: 0 <= i < |run.rows| ==> run.rows[i].position == i + 1)
            && (forall i :: 0 <= i < |run.rows| - 1 ==> run.rows[i].outcome.StepSucceeded?)
            && (run.status.Succeeded? ==> run.currentStep == |run.steps| && AllSucceeded(run.rows))
            && (run.status.Failed? && run.rows != [] ==> run.rows[|run.rows| - 1].outcome.StepFailed?)
  {
    AlwaysInv(states, actions, k);
  }

  /**
   Each position is started once: a row, once there, keeps its place and start for
   as long as the run exists, so current_step never goes back and what is left of
   the run, its steps less current_step, only shrinks. A recorded outcome is final.
   */
  lemma StepsStartOnce(states: seq<Hub>, actions: seq<Action>, j: nat, k: nat, id: int)
    requires History(states, actions) && j <= k < |states|
    requires id in states[j].table.runs && id in states[k].table.runs
    ensures var (a, b) := (states[j].table.runs[id], states[k].table.runs[id]);
            && a.steps == b.steps && |a.rows| == a.currentStep <= b.currentStep == |b.rows|
            && (forall i :: 0 <= i < a.currentStep ==> RowEvolves(a.rows[i], b.rows[i]))
  {
    AlwaysInv(states, actions, j);
    AlwaysInv(states, actions, k);
    AlwaysEvolves(states, actions, j, k);
  }

  /** Once a run has ended, a committed cancel included, it stays ended that way and no step of it ever starts. */
  lemma EndedRunsStayEnded(states: seq<Hub>, actions: seq<Action>, j: nat, k: nat, id: int)
    requires History(states, actions) && j <= k < |states|
    requires id in states[j].table.runs && !Active(states[j].table.runs[id].status) && id in states[k].table.runs
    ensures var (a, b) := (states[j].table.runs[id], states[k].table.runs[id]);
            && b.status == a.status && b.finishedAt == a.finishedAt
            && |b.rows| == b.currentStep == a.currentStep == |a.rows|
            && forall i :: 0 <= i < a.currentStep ==> b.rows[i].outcome == a.rows[i].outcome
  {
    AlwaysInv(states, actions, j);
    AlwaysInv(states, actions, k);
    AlwaysEvolves(states, actions, j, k);
    var (a, b) := (states[j].table.runs[id], states[k].table.runs[id]);
    assert forall i :: 0 <= i < |a.rows| ==> RowEvolves(a.rows[i], b.rows[i]);
  }

  /**
   A wait lasts at least its time however often the hub dies during it: it is over
   only once the clock has passed its start plus its length.
   */
  lemma WaitsLastTheirTime(states: seq<Hub>, actions: seq<Action>, k: nat, id: int, i: nat)
    requires History(states, actions) && k < |states| && id in states[k].table.runs
    requires i < |states[k].table.runs[id].rows| && states[k].table.runs[id].rows[i].wait
    requires states[k].table.runs[id].rows[i].outcome.StepSucceeded?
    ensures var run := states[k].table.runs[id];
            && i < |run.steps| && run.steps[i].Wait?
            && run.rows[i].finishedAt.Some?
            && run.rows[i].finishedAt.value >= run.rows[i].startedAt + run.steps[i].seconds * 1_000_000_000
  {
    AlwaysInv(states, actions, k);
    RunFacts(states[k], id);
  }

  /**
   A finished step records the command it sent, if it sent one, and no other's:
   with the outcome if the run is still active, and without changing it if the
   run has been cancelled meanwhile.
   */
  lemma StepRecordsOwnCommand(states: seq<Hub>, actions: seq<Action>, k: nat, tid: nat)
    requires History(states, actions) && k < |states| && states[k].up
    requires tid in states[k].threads && states[k].threads[tid].pc.Finishing?
    ensures var (h, th) := (states[k], states[k].threads[tid]);
            var h' := FinishStep(h, tid);
            && (th.pc.sent.Some? ==> IsOwnCommand(h, th, th.pc.sent.value))
            && h'.threads[tid].pc == (if th.pc.ok then AtStep(th.pc.position + 1) else Failing(th.pc.position))
            && (th.run in h.table.runs ==>
                  && th.run in h'.table.runs
                  && var (before, run) := (h.table.runs[th.run], h'.table.runs[th.run]);
                  && 1 <= th.pc.position == |before.rows| == |run.rows|
                  && run.rows[th.pc.position - 1].command == th.pc.sent
                  && run.rows[th.pc.position - 1].outcome ==
                       if !Active(before.status) then before.rows[th.pc.position - 1].outcome
                       else if th.pc.ok then StepSucceeded else StepFailed)
  {
    hide Inv;
    AlwaysInv(states, actions, k);
    ThreadFacts(states[k], tid);
    if states[k].threads[tid].run in states[k].table.runs {
      RunFacts(states[k], states[k].threads[tid].run);
    }
  }

  /** The command was sent by the step of its run the thread is at, unless the run has been deleted since. */
  ghost predicate IsOwnCommand(h: Hub, th: Thread, id: int)
    requires th.pc.Awaiting? || th.pc.Finishing?
  {
    && 0 <= id < |h.commands|
    && (h.commands[id].run.Some? ==> h.commands[id].run == Some(th.run) && h.commands[id].position == th.pc.position)
  }

  /** From j on and before k the hub stays up and the goroutine takes no step; what others do is left open. */
  ghost predicate Rests(actions: seq<Action>, j: nat, k: nat, tid: nat)
    requires j <= k <= |actions|
  {
    forall i :: j <= i < k ==> !actions[i].Crash? && !(actions[i].Advance? && actions[i].tid == tid)
  }

  lemma {:induction false} ThreadRests(states: seq<Hub>, actions: seq<Action>, j: nat, k: nat, tid: nat)
    requires History(states, actions) && j <= k < |states| && Rests(actions, j, k, tid)
    requires states[j].up && tid in states[j].threads && !states[j].threads[tid].pc.Loaded?
    ensures states[k].up && tid in states[k].threads && states[k].threads[tid] == states[j].threads[tid]
  {
    hide Apply, Enabled, Init;
    if j < k {
      ThreadRests(states, actions, j, k - 1, tid);
      OthersLeaveThread(states[k - 1], actions[k - 1], tid);
    }
  }

  lemma OthersLeaveThread(h: Hub, a: Action, tid: nat)
    requires Enabled(h, a) && h.up && tid in h.threads && !h.threads[tid].pc.Loaded?
    requires !a.Crash? && !(a.Advance? && a.tid == tid)
    ensures var h' := Apply(h, a); h'.up && tid in h'.threads && h'.threads[tid] == h.threads[tid]
  {
    hide AdmitRun, ResumeRun, LatestRunCommand, WaitRun, StartRunStep, FinishRunStep, FinishRun, CancelRun,
         Enter, CommandFor;
  }

  /**
   The verdict given while a step awaits its own command decides the step, if the
   hub does not die before it is recorded: acknowledged, the step is recorded as a
   success with that command and the executor moves on; otherwise as a failure, and
   it stops. A step cancelled meanwhile keeps that outcome but records the command.
   */
  lemma VerdictDecidesStep(states: seq<Hub>, actions: seq<Action>, j: nat, k: nat, tid: nat)
    requires History(states, actions) && j < k < |actions| && Rests(actions, j + 1, k, tid)
    requires actions[j].Advance? && actions[j].tid == tid && states[j].threads[tid].pc.Awaiting?
    requires actions[k].Advance? && actions[k].tid == tid
    ensures var (th, h, h') := (states[j].threads[tid], states[k], states[k + 1]);
            var (position, command, acknowledged) := (th.pc.position, th.pc.command, actions[j].acknowledged);
            && IsOwnCommand(states[j], th, command) && IsOwnCommand(h, th, command)
            && tid in h'.threads
            && h'.threads[tid].pc == (if acknowledged then AtStep(position + 1) else Failing(position))
            && (th.run in h.table.runs ==>
                  && th.run in h'.table.runs
                  && var (before, run) := (h.table.runs[th.run], h'.table.runs[th.run]);
                  && 1 <= position == |before.rows| == |run.rows|
                  && run.rows[position - 1].command == Some(command)
                  && run.rows[position - 1].outcome ==
                       if !Active(before.status) then before.rows[position - 1].outcome
                       else if acknowledged then StepSucceeded else StepFailed)
  {
    hide Inv, FinishRunStep, Evolves;
    AlwaysInv(states, actions, j);
    ThreadFacts(states[j], tid);
    assert states[j + 1].threads[tid] ==
             states[j].threads[tid].(pc := Finishing(states[j].threads[tid].pc.position, actions[j].acknowledged,
                                                     Some(states[j].threads[tid].pc.command)));
    ThreadRests(states, actions, j + 1, k, tid);
    StepRecordsOwnCommand(states, actions, k, tid);
    assert states[k + 1] == FinishStep(states[k], tid);
  }

  /** However often the hub dies in between, no step of any run has two recorded commands. */
  lemma NoSecondCommand(states: seq<Hub>, actions: seq<Action>, k: nat, i: nat, j: nat)
    requires History(states, actions) && k < |states|
    requires i < |states[k].commands| && j < |states[k].commands|
    requires states[k].commands[i].run.Some? && states[k].commands[i].run == states[k].commands[j].run
    requires states[k].commands[i].position == states[k].commands[j].position
    ensures i == j
  {
    AlwaysInv(states, actions, k);
  }

  /**
   The lookup an interrupted step makes by run, sensor, property and time finds
   exactly the command that step sent, even among steps that set the same thing.
   */
  lemma RecoveryTakesOwnCommand(states: seq<Hub>, actions: seq<Action>, k: nat, tid: nat)
    requires History(states, actions) && k < |states|
    requires tid in states[k].threads && states[k].threads[tid].pc.Settling?
             && states[k].threads[tid].run in states[k].table.runs
    ensures var (h, th) := (states[k], states[k].threads[tid]);
            && th.pc.position <= |th.steps| && th.steps[th.pc.position - 1].Set?
            && match LatestRunCommand(h.commands, th.run, th.steps[th.pc.position - 1], th.pc.since)
               case None => !HasCommand(h.commands, th.run, th.pc.position)
               case Some(c) => h.commands[c].run == Some(th.run) && h.commands[c].position == th.pc.position
  {
    AlwaysInv(states, actions, k);
    assert ThreadOk(states[k].threads[tid], states[k].table, states[k].commands);
    LookupFindsOwnCommand(states[k], states[k].threads[tid].run, states[k].threads[tid].pc.position);
  }

  /** Nothing changes but where the driver stands. */
  ghost predicate OnlyMoves(h: Hub, h': Hub, tid: nat, pc: Pc)
    requires tid in h.threads
  {
    h' == h.(threads := h.threads[tid := h.threads[tid].(pc := pc)])
  }

  /**
   An interrupted step that sent its command goes on to await that very command's outcome, and only
   one that sent none sends it.
   */
  lemma RecoveryGoesOn(states: seq<Hub>, actions: seq<Action>, k: nat, tid: nat)
    requires History(states, actions) && k < |actions| && actions[k].Advance? && actions[k].tid == tid
    requires states[k].threads[tid].pc.Settling? && states[k].threads[tid].run in states[k].table.runs
    ensures var (h, h', th) := (states[k], states[k + 1], states[k].threads[tid]);
            if HasCommand(h.commands, th.run, th.pc.position) then
              exists c: nat :: c < |h.commands| && h.commands[c].run == Some(th.run)
                               && h.commands[c].position == th.pc.position
                               && OnlyMoves(h, h', tid, Awaiting(th.pc.position, c))
            else OnlyMoves(h, h', tid, Sending(th.pc.position))
  {
    hide Inv, LatestRunCommand;
    RecoveryTakesOwnCommand(states, actions, k, tid);
    AlwaysInv(states, actions, k);
    ThreadFacts(states[k], tid);
    var (h, th) := (states[k], states[k].threads[tid]);
    var found := LatestRunCommand(h.commands, th.run, th.steps[th.pc.position - 1], th.pc.since);
    if found.Some? {
      assert OnlyMoves(h, states[k + 1], tid, Awaiting(th.pc.position, found.value));
    }
  }

  /**
   So the outcome of an interrupted step whose command was recorded is the verdict on that
   command, given after the hub came back: acknowledged, the step has succeeded.
   */
  lemma RecoveredStepTakesVerdict(states: seq<Hub>, actions: seq<Action>, i: nat, j: nat, k: nat, tid: nat)
    requires History(states, actions) && i < j < k < |actions|
    requires Rests(actions, i + 1, j, tid) && Rests(actions, j + 1, k, tid)
    requires actions[i].Advance? && actions[i].tid == tid && states[i].threads[tid].pc.Settling?
    requires actions[j].Advance? && actions[j].tid == tid && actions[k].Advance? && actions[k].tid == tid
    requires states[i].threads[tid].run in states[i].table.runs
    requires HasCommand(states[i].commands, states[i].threads[tid].run, states[i].threads[tid].pc.position)
    ensures var (th, h, h', acknowledged) :=
              (states[i].threads[tid], states[k], states[k + 1], actions[j].acknowledged);
            && states[j].threads[tid].run == th.run && states[j].threads[tid].pc.Awaiting?
            && states[j].threads[tid].pc.position == th.pc.position
            && tid in h'.threads
            && h'.threads[tid].pc == (if acknowledged then AtStep(th.pc.position + 1) else Failing(th.pc.position))
            && (th.run in h.table.runs ==>
                  && th.run in h'.table.runs
                  && var (before, run) := (h.table.runs[th.run], h'.table.runs[th.run]);
                  && 1 <= th.pc.position == |before.rows| == |run.rows|
                  && run.rows[th.pc.position - 1].command == Some(states[j].threads[tid].pc.command)
                  && run.rows[th.pc.position - 1].outcome ==
                       if !Active(before.status) then before.rows[th.pc.position - 1].outcome
                       else if acknowledged then StepSucceeded else StepFailed)
  {
    hide Apply, Enabled, Inv, HasCommand, IsOwnCommand;
    RecoveryGoesOn(states, actions, i, tid);
    DriverIsThere(states, actions, i);
    ThreadRests(states, actions, i + 1, j, tid);
    VerdictDecidesStep(states, actions, j, k, tid);
  }

  /**
   Sending a step's command records it once, as what the step sets, unless sending fails
   before that; the driver then awaits its outcome, or takes the failure for it.
   */
  lemma SendingRecords(states: seq<Hub>, actions: seq<Action>, k: nat, tid: nat)
    requires History(states, actions) && k < |actions| && actions[k].Advance? && actions[k].tid == tid
    requires states[k].threads[tid].pc.Sending? && states[k].threads[tid].run in states[k].table.runs
    ensures var (h, h', th, p) :=
              (states[k], states[k + 1], states[k].threads[tid], states[k].threads[tid].pc.position);
            && p <= |h.table.runs[th.run].steps| && h.table.runs[th.run].steps[p - 1].Set?
            && var step := h.table.runs[th.run].steps[p - 1];
               var sent := Command(Some(th.run), p, step.sensor, step.property, step.value, h.clock);
               match actions[k].result
               case NotRecorded => OnlyMoves(h, h', tid, Finishing(p, false, None))
               case RecordedThenFailed =>
                 OnlyMoves(h.(commands := h.commands + [sent]), h', tid, Finishing(p, false, Some(|h.commands|)))
               case Sent => OnlyMoves(h.(commands := h.commands + [sent]), h', tid, Awaiting(p, |h.commands|))
  {
    hide Inv;
    AlwaysInv(states, actions, k);
    ThreadFacts(states[k], tid);
  }

  /**
   Startup leaves a wait that is not over to the scheduler, resumes one that is, and carries on with
   a run from its row.
   */
  lemma StartupDrives(states: seq<Hub>, actions: seq<Action>, k: nat, tid: nat)
    requires History(states, actions) && k < |actions| && actions[k].Advance? && actions[k].tid == tid
    requires states[k].threads[tid].pc.Loaded? && IsActive(states[k].table, states[k].threads[tid].run)
    ensures var (h, h', id) := (states[k], states[k + 1], states[k].threads[tid].run);
            var run := h.table.runs[id];
            if run.status == Running then OnlyMoves(h, h', tid, Begin(run))
            else
              && run.resumeAt.Some?
              && if run.resumeAt.value <= h.clock then OnlyMoves(h, h', tid, Resuming)
                 else h' == h.(threads := h.threads - {tid}, resumes := h.resumes[id := run.resumeAt.value])
  {
    hide Inv;
    AlwaysInv(states, actions, k);
    ThreadFacts(states[k], tid);
    RunFacts(states[k], states[k].threads[tid].run);
  }

  /**
   A due entry is taken out for a goroutine that resumes its run, a cancelled run's entry is
   dropped, and the others stay.
   */
  lemma EntriesAreTakenOut(h: Hub, a: Action)
    requires Enabled(h, a) && (a.Pop? || a.DropEntry?)
    ensures var h' := Apply(h, a);
            && a.run !in h'.resumes && h'.table == h.table && h'.commands == h.commands
            && (forall run :: run != a.run ==>
                  (run in h.resumes <==> run in h'.resumes) && (run in h.resumes ==> h'.resumes[run] == h.resumes[run]))
            && if a.DropEntry? then h'.threads == h.threads
               else
                 && h.resumes[a.run] <= h.clock && a.tid in h'.threads && a.tid !in h.threads
                 && h'.threads[a.tid].run == a.run && h'.threads[a.tid].pc == Resuming
                 && forall tid :: tid in h.threads ==> tid in h'.threads && h'.threads[tid] == h.threads[tid]
  {
  }

  /** A driver that finds its run cancelled or deleted when it goes to the store stops there, and changes nothing. */
  lemma GoneRunsAreDropped(states: seq<Hub>, actions: seq<Action>, k: nat, tid: nat)
    requires History(states, actions) && k < |actions| && actions[k].Advance? && actions[k].tid == tid
    requires !IsActive(states[k].table, states[k].threads[tid].run)
    ensures var (h, h', pc) := (states[k], states[k + 1], states[k].threads[tid].pc);
            (pc.AtStep? && pc.position <= |h.threads[tid].steps|) || pc == Resuming || pc == Ending || pc.Failing?
            || (pc == Reading && h.threads[tid].run !in h.table.runs) ==>
              h' == h.(threads := h.threads - {tid})
  {
  }

  /** A waiting run waits until its wait's start plus its length, whatever became of the hub meanwhile. */
  lemma WaitsUntilTheirTime(states: seq<Hub>, actions: seq<Action>, k: nat, id: int)
    requires History(states, actions) && k < |states| && id in states[k].table.runs
    requires states[k].table.runs[id].status == Waiting
    ensures var run := states[k].table.runs[id];
            && 1 <= |run.rows| <= |run.steps| && run.steps[|run.rows| - 1].Wait?
            && run.rows[|run.rows| - 1].outcome == StepRunning
            && run.resumeAt ==
                 Some(run.rows[|run.rows| - 1].startedAt + run.steps[|run.rows| - 1].seconds * 1_000_000_000)
  {
    AlwaysInv(states, actions, k);
    RunFacts(states[k], id);
  }

  /**
   While the hub is up anybody may ask for, cancel or delete anything, it may die at any time, and
   it starts again.
   */
  lemma NothingIsBarred(h: Hub, automation: int, steps: seq<Step>, mode: Mode, run: int, runs: set<int>, tid: nat,
                        now: Instant)
    requires now >= h.clock
    ensures Enabled(h, Tick(now)) && (if h.up then Enabled(h, Crash) else Enabled(h, Start))
    ensures h.up ==> Enabled(h, Cancel(automation, run)) && Enabled(h, Delete(runs))
    ensures h.up ==> Enabled(h, Record(automation, steps, Missed)) && Enabled(h, Record(automation, steps, Failed))
    ensures h.up && tid !in h.threads ==> Enabled(h, Admit(automation, steps, mode, tid))
    ensures h.up && tid !in h.threads && run in h.resumes && h.resumes[run] <= h.clock ==> Enabled(h, Pop(run, tid))
    ensures h.up && tid in h.threads && !h.threads[tid].pc.AtStep? && h.threads[tid].run in h.table.runs ==>
              forall result, acknowledged :: Enabled(h, Advance(tid, result, acknowledged))
  {
  }

  /** A driver at a step can take it at any time later than the ends of the steps before. */
  lemma StepsCanStart(h: Hub, tid: nat, now: Instant)
    requires h.up && tid in h.threads && h.threads[tid].pc.AtStep? && now >= h.clock
    requires h.threads[tid].run in h.table.runs ==>
               forall i | 0 <= i < |h.table.runs[h.threads[tid].run].rows| ::
                 var row := h.table.runs[h.threads[tid].run].rows[i];
                 row.finishedAt.Some? ==> row.finishedAt.value < now
    ensures Enabled(h, Tick(now))
            && forall result, acknowledged :: Enabled(Apply(h, Tick(now)), Advance(tid, result, acknowledged))
  {
  }

  lemma DriverIsThere(states: seq<Hub>, actions: seq<Action>, i: nat)
    requires History(states, actions) && i < |actions| && actions[i].Advance?
    ensures states[i].up && actions[i].tid in states[i].threads
  {
  }

  /**
   A command's run, while there is one, was admitted and has started the step the command is of: it
   was not skipped, missed or refused.
   */
  lemma SendersWereAdmitted(states: seq<Hub>, actions: seq<Action>, k: nat, i: nat)
    requires History(states, actions) && k < |states| && i < |states[k].commands| && states[k].commands[i].run.Some?
    ensures var (h, c) := (states[k], states[k].commands[i]);
            && c.run.value in h.table.runs
            && var run := h.table.runs[c.run.value];
            && 1 <= c.position <= |run.rows|
            && !run.status.Skipped? && !run.status.Missed?
  {
    AlwaysInv(states, actions, k);
    RunFacts(states[k], states[k].commands[i].run.value);
  }

  /**
   A run that was over before it started any step, such as a skipped, missed or refused one, never
   sends a command.
   */
  lemma UnstartedRunsSendNothing(states: seq<Hub>, actions: seq<Action>, j: nat, k: nat, id: int, i: nat)
    requires History(states, actions) && j <= k < |states| && i < |states[k].commands|
    requires id in states[j].table.runs && !Active(states[j].table.runs[id].status)
             && states[j].table.runs[id].rows == []
    ensures states[k].commands[i].run != Some(id)
  {
    if states[k].commands[i].run == Some(id) {
      SendersWereAdmitted(states, actions, k, i);
      EndedRunsStayEnded(states, actions, j, k, id);
    }
  }

  /**
   While the hub is up every active run has exactly one driver: a goroutine, or
   a resume entry that carries the run's own resume time, and never both.
   */
  lemma ExactlyOneDriver(states: seq<Hub>, actions: seq<Action>, k: nat, id: int)
    requires History(states, actions) && k < |states| && states[k].up && IsActive(states[k].table, id)
    ensures var h := states[k];
            && (id in h.resumes <==> !exists tid :: Drives(h, tid, id))
            && (forall i, j :: Drives(h, i, id) && Drives(h, j, id) ==> i == j)
            && (id in h.resumes ==>
                  h.table.runs[id].status.Waiting? && h.table.runs[id].resumeAt == Some(h.resumes[id]))
  {
    AlwaysInv(states, actions, k);
  }

  /** At most one run of an automation is ever active. */
  lemma OneActiveRun(states: seq<Hub>, actions: seq<Action>, k: nat, i: int, j: int)
    requires History(states, actions) && k < |states|
    requires IsActive(states[k].table, i) && IsActive(states[k].table, j)
    requires states[k].table.runs[i].automation == states[k].table.runs[j].automation
    ensures i == j
  {
    AlwaysInv(states, actions, k);
  }

  /** A resume entry left behind by a cancelled or deleted run never restarts it: the goroutine it starts just ends. */
  lemma StaleResumeDoesNothing(states: seq<Hub>, actions: seq<Action>, j: nat, k: nat, tid: nat)
    requires History(states, actions) && j <= k < |states|
    requires tid in states[k].threads && states[k].threads[tid].pc.Resuming?
    requires states[k].threads[tid].run < states[j].table.nextId
    requires !IsActive(states[j].table, states[k].threads[tid].run)
    ensures Resume(states[k], tid) == Exit(states[k], tid)
  {
    var id := states[k].threads[tid].run;
    AlwaysEvolves(states, actions, j, k);
    if id in states[k].table.runs {
      assert id in states[j].table.runs;
    }
  }

  // ---------- Executors come to an end ----------

  /** How far a driver has to go: nothing of the run is known before the row is read back. */
  function Distance(th: Thread): (nat, nat) {
    match th.pc
    case Loaded(_) => (1, 4)
    case Resuming => (1, 3)
    case Reading => (1, 2)
    case Begin(_) => (1, 1)
    case Settling(p, _) => (0, StepsLeft(th, p) * 6 + 5)
    case AtStep(p) => (0, StepsLeft(th, p) * 6 + 6)
    case Sending(p) => (0, StepsLeft(th, p) * 6 + 4)
    case Awaiting(p, _) => (0, StepsLeft(th, p) * 6 + 3)
    case Finishing(p, _, _) => (0, StepsLeft(th, p) * 6 + 2)
    case Failing(p) => (0, StepsLeft(th, p) * 6 + 1)
    case Ending => (0, 1)
    case Rescheduling(_) => (0, 1)
  }

  /** The steps not yet past when the driver is at position. */
  function StepsLeft(th: Thread, position: nat): nat {
    if position <= |th.steps| then |th.steps| + 1 - position else 0
  }

  ghost predicate Closer(a: (nat, nat), b: (nat, nat)) {
    a.0 < b.0 || (a.0 == b.0 && a.1 < b.1)
  }

  ghost predicate Progresses(h: Hub, h': Hub, tid: nat)
    requires tid in h.threads
  {
    tid in h'.threads ==>
      h'.threads[tid].run == h.threads[tid].run && Closer(Distance(h'.threads[tid]), Distance(h.threads[tid]))
  }

  lemma LaunchProgresses(h: Hub, tid: nat)
    requires tid in h.threads && h.threads[tid].pc.Loaded?
    ensures Progresses(h, Launch(h, tid), tid)
  {
  }

  lemma EnterProgresses(h: Hub, tid: nat)
    requires tid in h.threads && h.threads[tid].pc.Begin? && CopyOk(h.threads[tid])
    ensures Progresses(h, Goto(h, tid, Enter(h.threads[tid].pc.snapshot)), tid)
  {
  }

  lemma StartStepProgresses(h: Hub, tid: nat)
    requires tid in h.threads && h.threads[tid].pc.AtStep?
    ensures Progresses(h, StartStep(h, tid), tid)
  {
  }

  lemma LookUpProgresses(h: Hub, tid: nat)
    requires tid in h.threads && h.threads[tid].pc.Settling? && CopyOk(h.threads[tid])
    ensures Progresses(h, LookUp(h, tid), tid)
  {
  }

  lemma FinishProgresses(h: Hub, tid: nat)
    requires tid in h.threads && h.threads[tid].pc.Finishing? && CopyOk(h.threads[tid])
    ensures Progresses(h, FinishStep(h, tid), tid)
  {
  }

  lemma CopyProgresses(h: Hub, tid: nat, result: SendResult, acknowledged: bool)
    requires tid in h.threads && CopyOk(h.threads[tid])
    ensures Progresses(h, AdvanceThread(h, tid, result, acknowledged), tid)
  {
    hide CopyOk, Launch, StartStep, LookUp, FinishStep, Enter;
    match h.threads[tid].pc {
      case Loaded(_) => LaunchProgresses(h, tid);
      case Begin(_) => EnterProgresses(h, tid);
      case AtStep(_) => StartStepProgresses(h, tid);
      case Settling(_, _) => LookUpProgresses(h, tid);
      case Finishing(_, _, _) => FinishProgresses(h, tid);
      case _ =>
    }
  }

  /**
   Every step of a driver ends it or brings it closer to its end, so between
   crashes no executor runs for ever; a deleted run's ends too.
   */
  lemma DriverProgresses(states: seq<Hub>, actions: seq<Action>, k: nat, tid: nat, result: SendResult,
                         acknowledged: bool)
    requires History(states, actions) && k < |states|
    requires Enabled(states[k], Advance(tid, result, acknowledged))
    ensures Progresses(states[k], Apply(states[k], Advance(tid, result, acknowledged)), tid)
  {
    hide Inv;
    AlwaysInv(states, actions, k);
    ThreadFacts(states[k], tid);
    CopyProgresses(states[k], tid, result, acknowledged);
  }
}
