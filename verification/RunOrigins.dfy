/**
 Where what the run tables and the command log hold comes from: which request made
 a run, which step of which driver started and settled each of its steps, and why
 and when it ended.
 */
module RunOrigins {
  import opened Wrappers
  import opened RunTable
  import opened RunProtocol
  import opened RunInvariant
  import opened RunGuarantees

  // ---------- What one action does to one run ----------

  /** The action asks for the run, and the run is what was asked for: to be done, or skipped for one still active. */
  ghost predicate Requests(h: Hub, a: Action, h': Hub, id: int) {
    && id == h.table.nextId && id !in h.table.runs
    && match a
       case Admit(automation, steps, mode, _) =>
         && IsNewRun(h'.table, id, automation, steps, h.clock)
         && var busy := exists other :: IsActive(h.table, other) && h.table.runs[other].automation == automation;
            if mode == Single && busy then
              h'.table.runs[id].status == Skipped && h'.table.runs[id].finishedAt == Some(h.clock)
            else
              h'.table.runs[id].status == Running && h'.table.runs[id].finishedAt == None
       case Record(automation, steps, status) =>
         && IsNewRun(h'.table, id, automation, steps, h.clock)
         && h'.table.runs[id].status == status && h'.table.runs[id].finishedAt == Some(h.clock)
       case _ => false
  }

  /** The run's wait is over, and nothing else of the run changes. */
  ghost predicate WaitOver(a: Run, b: Run, at: Instant) {
    && b.status == Running && b.resumeAt == None && b.finishedAt == a.finishedAt && |b.rows| == |a.rows| > 0
    && (forall i :: 0 <= i < |a.rows| - 1 ==> b.rows[i] == a.rows[i])
    && var (before, after) := (a.rows[|a.rows| - 1], b.rows[|a.rows| - 1]);
       before.wait && after == before.(outcome := StepSucceeded, finishedAt := Some(at))
  }

  /** The newest step is settled as it turned out, unless it ended with its run; its command is recorded either way. */
  ghost predicate StepSettled(a: Run, b: Run, p: nat, ok: bool, sent: Option<int>, at: Instant) {
    && p == |a.rows| == |b.rows| && p > 0 && !a.rows[p - 1].wait
    && b.status == a.status && b.finishedAt == a.finishedAt && b.resumeAt == a.resumeAt
    && (forall i :: 0 <= i < p - 1 ==> b.rows[i] == a.rows[i])
    && b.rows[p - 1].command == sent
    && match a.rows[p - 1].outcome
       case StepRunning =>
         b.rows[p - 1].outcome == (if ok then StepSucceeded else StepFailed) && b.rows[p - 1].finishedAt == Some(at)
       case StepCancelled => b.rows[p - 1].outcome == StepCancelled
                             && b.rows[p - 1].finishedAt == a.rows[p - 1].finishedAt
       case _ => false
  }

  ghost predicate Closed(a: Run, b: Run, status: RunStatus, at: Instant) {
    b.status == status && b.finishedAt == Some(at) && b.resumeAt == None && b.rows == a.rows
  }

  /** What a driver's next transaction does to its run. */
  ghost predicate Driven(pc: Pc, a: Run, b: Run, at: Instant) {
    match pc
    case AtStep(p) =>
      if a.status != Running || p > |a.steps| then b == a
      else
        && p == |a.rows| + 1 && OneMoreStarted(a, b, a.steps[p - 1].Wait?, at)
        && (match a.steps[p - 1]
            case Wait(seconds) => b.status == Waiting && b.resumeAt == Some(at + seconds * 1_000_000_000)
            case Set(_, _, _) => b.status == Running && b.resumeAt == None)
    case Resuming => if a.status == Waiting then WaitOver(a, b, at) else b == a
    case Finishing(p, ok, sent) => StepSettled(a, b, p, ok, sent, at)
    case Failing(p) => if a.status == Running then Closed(a, b, Failed, at) else b == a
    case Ending => if a.status == Running then Closed(a, b, Succeeded, at) else b == a
    case _ => b == a
  }

  /**
   A run is ended early by a cancel of its own, or to start its automation over, and otherwise only
   its driver changes it.
   */
  ghost predicate Changes(h: Hub, a: Action, h': Hub, id: int)
    requires id in h.table.runs && id in h'.table.runs
  {
    var (run, after) := (h.table.runs[id], h'.table.runs[id]);
    match a
    case Cancel(automation, other) =>
      if other == id && automation == run.automation && Active(run.status) then EndedEarly(run, after, h.clock)
      else after == run
    case Admit(automation, _, mode, _) =>
      if mode == Restart && automation == run.automation && Active(run.status) then EndedEarly(run, after, h.clock)
      else after == run
    case Advance(tid, _, _) =>
      if tid in h.threads && h.threads[tid].run == id then Driven(h.threads[tid].pc, run, after, h.clock)
      else after == run
    case _ => after == run
  }

  lemma BusyWhenActive(t: Table, automation: int)
    ensures forall id :: id in ActiveRuns(t, automation) <==> IsActive(t, id) && t.runs[id].automation == automation
    ensures ActiveRuns(t, automation) != {} <==> exists id :: IsActive(t, id) && t.runs[id].automation == automation
  {
    EmptyOrHasMember(ActiveRuns(t, automation));
  }

  lemma AdmitRequests(h: Hub, automation: int, steps: seq<Step>, mode: Mode, tid: nat, id: int)
    requires TableOk(h.table) && Enabled(h, Admit(automation, steps, mode, tid))
    ensures var (a, h') := (Admit(automation, steps, mode, tid), Apply(h, Admit(automation, steps, mode, tid)));
            && Requests(h, a, h', h.table.nextId)
            && (id in h'.table.runs && id !in h.table.runs ==> id == h.table.nextId)
            && (id in h.table.runs ==> id in h'.table.runs && Changes(h, a, h', id))
  {
    hide RunOk, EndedEarly, AdmitRun, ActiveRuns;
    AdmitKeeps(h.table, automation, steps, mode, h.clock);
    BusyWhenActive(h.table, automation);
  }

  lemma RecordRequests(h: Hub, automation: int, steps: seq<Step>, status: RunStatus, id: int)
    requires TableOk(h.table) && Enabled(h, Record(automation, steps, status))
    ensures var (a, h') := (Record(automation, steps, status), Apply(h, Record(automation, steps, status)));
            && Requests(h, a, h', h.table.nextId)
            && (id in h'.table.runs && id !in h.table.runs ==> id == h.table.nextId)
            && (id in h.table.runs ==> id in h'.table.runs && Changes(h, a, h', id))
  {
    hide RunOk, InsertRun;
    InsertKeeps(h.table, automation, steps, status, h.clock, Some(h.clock));
  }

  lemma CancelChanges(h: Hub, automation: int, run: int, id: int)
    requires TableOk(h.table) && Enabled(h, Cancel(automation, run))
    ensures var (a, h') := (Cancel(automation, run), Apply(h, Cancel(automation, run)));
            && (id in h.table.runs <==> id in h'.table.runs)
            && (id in h.table.runs ==> Changes(h, a, h', id))
  {
    hide RunOk, EndedEarly, CancelRun;
    CancelDecides(h.table, automation, run, h.clock);
  }

  /** What a driver that stands at its run's next step does to the run. */
  lemma StartDriven(h: Hub, tid: nat)
    requires tid in h.threads && h.threads[tid].pc.AtStep? && h.threads[tid].run in h.table.runs
    requires var (th, run) := (h.threads[tid], h.table.runs[h.threads[tid].run]);
             RunOk(run) && th.steps == run.steps && th.pc.position == |run.rows| + 1
    ensures var (id, h') := (h.threads[tid].run, StartStep(h, tid));
            id in h'.table.runs && Driven(h.threads[tid].pc, h.table.runs[id], h'.table.runs[id], h.clock)
  {
    var (th, run) := (h.threads[tid], h.table.runs[h.threads[tid].run]);
    if th.pc.position <= |run.steps| && run.status == Running {
      StartedIs(run, th.pc.position, h.clock);
    }
    assert run.status == Running ==> run.resumeAt == None;
    hide RunOk, StartedRun, WaitingRun, OneMoreStarted;
  }

  lemma StartedIs(run: Run, p: Position, at: Instant)
    requires run.status == Running && p == |run.rows| + 1 <= |run.steps|
    ensures match run.steps[p - 1]
            case Wait(seconds) =>
              var after := WaitingRun(run, p, at, WaitUntil(at, run.steps[p - 1]));
              && OneMoreStarted(run, after, true, at)
              && after.status == Waiting && after.resumeAt == Some(at + seconds * 1_000_000_000)
            case Set(_, _, _) =>
              var after := StartedRun(run, p, false, at);
              OneMoreStarted(run, after, false, at) && after.status == Running && after.resumeAt == run.resumeAt
  {
  }

  lemma ResumeDriven(h: Hub, tid: nat)
    requires tid in h.threads && h.threads[tid].run in h.table.runs && RunOk(h.table.runs[h.threads[tid].run])
    requires IsActive(h.table, h.threads[tid].run) && h.table.runs[h.threads[tid].run].status == Waiting ==>
               h.table.runs[h.threads[tid].run].resumeAt.value <= h.clock
    ensures var (id, h') := (h.threads[tid].run, Resume(h, tid));
            id in h'.table.runs && Driven(Resuming, h.table.runs[id], h'.table.runs[id], h.clock)
  {
    var run := h.table.runs[h.threads[tid].run];
    if run.status == Waiting {
      ResumedRunKeeps(run, h.clock);
    }
  }

  lemma FinishDriven(h: Hub, tid: nat)
    requires tid in h.threads && h.threads[tid].pc.Finishing?
    requires h.threads[tid].run in h.table.runs && RunOk(h.table.runs[h.threads[tid].run])
    requires OpenAt(h.table.runs[h.threads[tid].run], h.threads[tid].pc.position)
    ensures var (id, h') := (h.threads[tid].run, FinishStep(h, tid));
            id in h'.table.runs && Driven(h.threads[tid].pc, h.table.runs[id], h'.table.runs[id], h.clock)
  {
  }

  lemma CloseDriven(h: Hub, tid: nat)
    requires tid in h.threads && (h.threads[tid].pc.Failing? || h.threads[tid].pc.Ending?)
    requires h.threads[tid].run in h.table.runs && RunOk(h.table.runs[h.threads[tid].run])
    ensures var (id, h') :=
              (h.threads[tid].run, Close(h, tid, if h.threads[tid].pc.Failing? then Failed else Succeeded));
            id in h'.table.runs && Driven(h.threads[tid].pc, h.table.runs[id], h'.table.runs[id], h.clock)
  {
  }

  /** The driver's other steps leave the tables alone. */
  lemma OthersAreNotDriven(h: Hub, tid: nat, result: SendResult, acknowledged: bool)
    requires tid in h.threads
    requires match h.threads[tid].pc
             case AtStep(_) => false
             case Resuming => false
             case Finishing(_, _, _) => false
             case Failing(_) => false
             case Ending => false
             case _ => true
    ensures AdvanceThread(h, tid, result, acknowledged).table == h.table
  {
    hide LatestRunCommand, Enter;
  }

  lemma DrivenOne(h: Hub, tid: nat, result: SendResult, acknowledged: bool)
    requires Inv(h) && tid in h.threads && h.threads[tid].run in h.table.runs
    ensures var (id, h') := (h.threads[tid].run, AdvanceThread(h, tid, result, acknowledged));
            id in h'.table.runs && Driven(h.threads[tid].pc, h.table.runs[id], h'.table.runs[id], h.clock)
  {
    ThreadFacts(h, tid);
    RunFacts(h, h.threads[tid].run);
    hide Inv, RunOk, LatestRunCommand, Enter, StartStep, Resume, FinishStep, Close;
    match h.threads[tid].pc {
      case AtStep(p) => StartDriven(h, tid);
      case Resuming =>
        ResumeDueFacts(h, tid);
        ResumeDriven(h, tid);
      case Finishing(p, ok, sent) => FinishDriven(h, tid);
      case Failing(_) => CloseDriven(h, tid);
      case Ending => CloseDriven(h, tid);
      case _ => OthersAreNotDriven(h, tid, result, acknowledged);
    }
  }

  lemma ResumeDueFacts(h: Hub, tid: nat)
    requires Inv(h) && tid in h.threads && h.threads[tid].run in h.table.runs && h.threads[tid].pc == Resuming
    ensures IsActive(h.table, h.threads[tid].run) ==>
              h.table.runs[h.threads[tid].run].resumeAt.Some?
              && h.table.runs[h.threads[tid].run].resumeAt.value <= h.clock
  {
  }

  /** New runs are those requested, and a run once there is changed as said and by nobody else. */
  lemma RunChanges(h: Hub, a: Action, id: int)
    requires Enabled(h, a) && Inv(h)
    ensures var h' := Apply(h, a);
            && (a.Admit? || a.Record? ==> Requests(h, a, h', h.table.nextId))
            && (id in h'.table.runs && id !in h.table.runs ==> (a.Admit? || a.Record?) && id == h.table.nextId)
            && (id in h.table.runs && id in h'.table.runs ==> Changes(h, a, h', id))
            && (id in h.table.runs && id !in h'.table.runs ==> a.Delete? && id in a.runs)
            && (a.Delete? && id in a.runs ==> id !in h'.table.runs)
  {
    TableFacts(h);
    hide Inv, TableOk, EndedEarly, Driven, AdmitRun, CancelRun, InsertRun, AdvanceThread, IsNewRun, Requests;
    match a {
      case Admit(automation, steps, mode, tid) => AdmitRequests(h, automation, steps, mode, tid, id);
      case Record(automation, steps, status) => RecordRequests(h, automation, steps, status, id);
      case Cancel(automation, run) => CancelChanges(h, automation, run, id);
      case Advance(tid, result, acknowledged) =>
        DrivesOnlyItsOwn(h, tid, result, acknowledged, id);
        if h.threads[tid].run in h.table.runs {
          DrivenOne(h, tid, result, acknowledged);
        }
      case _ =>
    }
  }

  lemma DrivesOnlyItsOwn(h: Hub, tid: nat, result: SendResult, acknowledged: bool, id: int)
    requires tid in h.threads
    ensures var h' := AdvanceThread(h, tid, result, acknowledged);
            && (id in h.table.runs <==> id in h'.table.runs)
            && (id in h.table.runs && id != h.threads[tid].run ==> h'.table.runs[id] == h.table.runs[id])
  {
    hide LatestRunCommand, Enter, StartStep, Resume, FinishStep, Close, SameRunsBut;
    match h.threads[tid].pc {
      case AtStep(_) => StartsOnlyItsOwn(h, tid, id);
      case Finishing(_, _, _) => FinishesOnlyItsOwn(h, tid, id);
      case Failing(_) => ClosesOnlyItsOwn(h, tid, Failed, id);
      case Ending => ClosesOnlyItsOwn(h, tid, Succeeded, id);
      case Resuming => ResumesOnlyItsOwn(h, tid, id);
      case _ => OthersAreNotDriven(h, tid, result, acknowledged);
    }
  }

  lemma StartsOnlyItsOwn(h: Hub, tid: nat, id: int)
    requires tid in h.threads && h.threads[tid].pc.AtStep?
    ensures var h' := StartStep(h, tid);
            && (id in h.table.runs <==> id in h'.table.runs)
            && (id in h.table.runs && id != h.threads[tid].run ==> h'.table.runs[id] == h.table.runs[id])
  {
    hide StartedRun, WaitingRun, WaitUntil;
  }

  lemma FinishesOnlyItsOwn(h: Hub, tid: nat, id: int)
    requires tid in h.threads && h.threads[tid].pc.Finishing?
    ensures var h' := FinishStep(h, tid);
            && (id in h.table.runs <==> id in h'.table.runs)
            && (id in h.table.runs && id != h.threads[tid].run ==> h'.table.runs[id] == h.table.runs[id])
  {
    hide RowFinished;
  }

  lemma ClosesOnlyItsOwn(h: Hub, tid: nat, status: RunStatus, id: int)
    requires tid in h.threads
    ensures var h' := Close(h, tid, status);
            && (id in h.table.runs <==> id in h'.table.runs)
            && (id in h.table.runs && id != h.threads[tid].run ==> h'.table.runs[id] == h.table.runs[id])
  {
  }

  lemma ResumesOnlyItsOwn(h: Hub, tid: nat, id: int)
    requires tid in h.threads
    ensures var h' := Resume(h, tid);
            && (id in h.table.runs <==> id in h'.table.runs)
            && (id in h.table.runs && id != h.threads[tid].run ==> h'.table.runs[id] == h.table.runs[id])
  {
    hide ResumedRun;
  }

  // ---------- Where runs come from ----------

  lemma NextChanges(states: seq<Hub>, actions: seq<Action>, k: nat, id: int)
    requires History(states, actions) && k < |actions|
    ensures var (h, a, h') := (states[k], actions[k], states[k + 1]);
            && Inv(h) && Inv(h') && Enabled(h, a) && h' == Apply(h, a) && Evolves(h.table, h'.table)
            && (a.Admit? || a.Record? ==> Requests(h, a, h', h.table.nextId))
            && (id in h'.table.runs && id !in h.table.runs ==> (a.Admit? || a.Record?) && id == h.table.nextId)
            && (id in h.table.runs && id in h'.table.runs ==> Changes(h, a, h', id))
            && (id in h.table.runs && id !in h'.table.runs ==> a.Delete? && id in a.runs)
            && (a.Delete? && id in a.runs ==> id !in h'.table.runs)
  {
    hide Inv, Apply, Enabled, Evolves, Requests, Changes, Init;
    AlwaysInv(states, actions, k);
    AlwaysInv(states, actions, k + 1);
    StepKeeps(states[k], actions[k]);
    RunChanges(states[k], actions[k], id);
  }

  /**
   Every run in the table was asked for, once, with the steps it has, at the time it started, and is
   there as asked for.
   */
  lemma {:induction false} RunsWereRequested(states: seq<Hub>, actions: seq<Action>, k: nat, id: int) returns (i: nat)
    requires History(states, actions) && k < |states| && id in states[k].table.runs
    ensures i < k && (actions[i].Admit? || actions[i].Record?) && Requests(states[i], actions[i], states[i + 1], id)
    ensures var run := states[k].table.runs[id];
            && run.automation == actions[i].automation && run.steps == actions[i].steps
            && run.startedAt == states[i].clock
  {
    hide Inv, Apply, Enabled, Changes;
    NextChanges(states, actions, k - 1, id);
    if id in states[k - 1].table.runs {
      i := RunsWereRequested(states, actions, k - 1, id);
    } else {
      i := k - 1;
    }
  }

  // ---------- Why runs end ----------

  /** The action ends the run with the status given. */
  ghost predicate Ends(h: Hub, a: Action, id: int, automation: int, status: RunStatus) {
    match status
    case Succeeded => DriverIs(h, a, id) && h.threads[a.tid].pc == Ending
    case Failed => (DriverIs(h, a, id) && h.threads[a.tid].pc.Failing?) || (a.Record? && id == h.table.nextId)
    case Cancelled => a == Cancel(automation, id) || (a.Admit? && a.mode == Restart && a.automation == automation)
    case Skipped => a.Admit? && a.mode == Single && a.automation == automation && id == h.table.nextId
    case Missed => a.Record? && id == h.table.nextId
    case _ => false
  }

  ghost predicate DriverIs(h: Hub, a: Action, id: int) {
    a.Advance? && Drives(h, a.tid, id)
  }

  lemma EndingStep(h: Hub, a: Action, h': Hub, id: int)
    requires Enabled(h, a) && id in h'.table.runs && !Active(h'.table.runs[id].status)
    requires if id in h.table.runs then Active(h.table.runs[id].status) && Changes(h, a, h', id)
             else (a.Admit? || a.Record?) && id == h.table.nextId && Requests(h, a, h', id)
    ensures var run := h'.table.runs[id];
            Ends(h, a, id, run.automation, run.status) && run.finishedAt == Some(h.clock)
  {
    if a.Record? {
      assert a.status == Missed || a.status == Failed;
    }
  }

  /** A run that is over was ended by something that ends runs so, and at that moment. */
  lemma {:induction false} EndsHaveCauses(states: seq<Hub>, actions: seq<Action>, k: nat, id: int) returns (i: nat)
    requires History(states, actions) && k < |states|
    requires id in states[k].table.runs && !Active(states[k].table.runs[id].status)
    ensures i < k && (id !in states[i].table.runs || Active(states[i].table.runs[id].status))
    ensures var run := states[k].table.runs[id];
            Ends(states[i], actions[i], id, run.automation, run.status) && run.finishedAt == Some(states[i].clock)
  {
    hide Inv, Apply, Enabled, Changes, Requests, Ends;
    NextChanges(states, actions, k - 1, id);
    if id in states[k - 1].table.runs && !Active(states[k - 1].table.runs[id].status) {
      i := EndsHaveCauses(states, actions, k - 1, id);
    } else {
      i := k - 1;
      EndingStep(states[i], actions[i], states[k], id);
    }
  }

  // ---------- Why steps start and how they turn out ----------

  /** The driver of the run, at the position, learns how its step turned out. */
  ghost predicate Decides(h: Hub, a: Action, id: int, p: nat, ok: bool, sent: Option<int>) {
    && DriverIs(h, a, id)
    && match h.threads[a.tid].pc
       case Awaiting(q, command) => q == p && ok == a.acknowledged && sent == Some(command)
       case Sending(q) =>
         && q == p && !ok
         && (match a.result
             case NotRecorded => sent == None
             case RecordedThenFailed => sent == Some(|h.commands|)
             case Sent => false)
       case _ => false
  }

  ghost predicate WasDecided(states: seq<Hub>, actions: seq<Action>, k: nat, id: int, p: nat, ok: bool,
                             sent: Option<int>)
    requires k <= |actions| && k <= |states|
  {
    exists i :: 0 <= i < k && Decides(states[i], actions[i], id, p, ok, sent)
  }

  lemma OwnFinishing(h: Hub, tid: nat, result: SendResult, acknowledged: bool)
    requires tid in h.threads && Enabled(h, Advance(tid, result, acknowledged))
    requires var th := h.threads[tid];
             th.pc.Sending? ==>
               th.pc.position <= |th.steps| && (th.run in h.table.runs ==> th.steps[th.pc.position - 1].Set?)
    requires var h' := AdvanceThread(h, tid, result, acknowledged); tid in h'.threads && h'.threads[tid].pc.Finishing?
    ensures var th := AdvanceThread(h, tid, result, acknowledged).threads[tid];
            Decides(h, Advance(tid, result, acknowledged), th.run, th.pc.position, th.pc.ok, th.pc.sent)
  {
    hide AdmitRun, ResumeRun, LatestRunCommand, WaitRun, StartRunStep, FinishRunStep, FinishRun, CancelRun, CommandFor,
         StepsFinishedBefore, WaitUntil;
  }

  lemma NewThreadsHaveNotFinished(h: Hub, a: Action, tid: nat)
    requires Enabled(h, a) && !(a.Advance? && a.tid == tid)
    requires a.Crash? || a.Start? || tid !in h.threads || h.threads[tid].pc.Loaded?
    ensures tid in Apply(h, a).threads ==> !Apply(h, a).threads[tid].pc.Finishing?
  {
    hide AdmitRun, ResumeRun, LatestRunCommand, WaitRun, StartRunStep, FinishRunStep, FinishRun, CancelRun,
         CommandFor, Enter;
  }

  lemma FinishingStep(h: Hub, a: Action, tid: nat)
    requires Enabled(h, a) && Inv(h) && tid in Apply(h, a).threads && Apply(h, a).threads[tid].pc.Finishing?
    ensures var th := Apply(h, a).threads[tid];
            || (tid in h.threads && h.threads[tid] == th)
            || Decides(h, a, th.run, th.pc.position, th.pc.ok, th.pc.sent)
  {
    hide Inv, Decides, AdvanceThread, ThreadOk;
    if a.Advance? && a.tid == tid {
      SendingFacts(h, tid);
      OwnFinishing(h, tid, a.result, a.acknowledged);
    } else if a.Crash? || a.Start? || tid !in h.threads || h.threads[tid].pc.Loaded? {
      NewThreadsHaveNotFinished(h, a, tid);
    } else {
      ThreadsOnlyWhileUp(h);
      OthersLeaveThread(h, a, tid);
    }
  }

  lemma SendingFacts(h: Hub, tid: nat)
    requires Inv(h) && tid in h.threads
    ensures var th := h.threads[tid];
            th.pc.Sending? ==>
              && th.pc.position <= |th.steps|
              && (th.run in h.table.runs ==>
                    th.steps == h.table.runs[th.run].steps && th.steps[th.pc.position - 1].Set?
                    && !HasCommand(h.commands, th.run, th.pc.position))
  {
    ThreadFacts(h, tid);
    hide Inv;
  }

  lemma ThreadsOnlyWhileUp(h: Hub)
    requires Inv(h) && h.threads != map[]
    ensures h.up
  {
  }

  lemma {:induction false} FinishingWasDecided(states: seq<Hub>, actions: seq<Action>, k: nat, tid: nat)
    requires History(states, actions) && k < |states|
    requires tid in states[k].threads && states[k].threads[tid].pc.Finishing?
    ensures var th := states[k].threads[tid];
            WasDecided(states, actions, k, th.run, th.pc.position, th.pc.ok, th.pc.sent)
  {
    hide Inv, Apply, Enabled, Decides;
    var th := states[k].threads[tid];
    AlwaysInv(states, actions, k - 1);
    FinishingStep(states[k - 1], actions[k - 1], tid);
    if tid in states[k - 1].threads && states[k - 1].threads[tid] == th {
      FinishingWasDecided(states, actions, k - 1, tid);
    }
  }

  /** The row of a step of the run, once it has one. */
  ghost predicate HasRow(h: Hub, id: int, i: nat) {
    id in h.table.runs && i < |h.table.runs[id].rows|
  }

  ghost function RowOf(h: Hub, id: int, i: nat): StepRow
    requires HasRow(h, id, i)
  {
    h.table.runs[id].rows[i]
  }

  /**
   What becomes of a row in one step: it is settled, or keeps everything but, if it ended with its
   run, its command.
   */
  ghost predicate RowChanges(h: Hub, a: Action, run: Run, after: Run, id: int, i: nat, at: Instant)
    requires i < |run.rows| && i < |after.rows|
  {
    var (before, row) := (run.rows[i], after.rows[i]);
    match before.outcome
    case StepRunning =>
      && row.finishedAt == Some(at)
      && (match row.outcome
          case StepRunning => false
          case StepCancelled => after.status == Cancelled && after.finishedAt == Some(at)
                                && row.command == before.command
          case _ =>
            && DriverIs(h, a, id)
            && if row.wait then
                 h.threads[a.tid].pc == Resuming && row.outcome == StepSucceeded && row.command == before.command
               else h.threads[a.tid].pc == Finishing(i + 1, row.outcome == StepSucceeded, row.command))
    case StepCancelled => row == before.(command := row.command)
    case _ => false
  }

  lemma EarlyRow(h: Hub, a: Action, run: Run, after: Run, id: int, i: nat, at: Instant)
    requires EndedEarly(run, after, at) && i < |after.rows|
    ensures i < |run.rows| && (after.rows[i] != run.rows[i] ==> RowChanges(h, a, run, after, id, i, at))
  {
  }

  lemma DrivenRow(h: Hub, a: Action, run: Run, after: Run, id: int, i: nat)
    requires DriverIs(h, a, id) && Driven(h.threads[a.tid].pc, run, after, h.clock) && i < |after.rows|
    requires RunOk(run) && RunOk(after) && RunEvolves(run, after)
    ensures i >= |run.rows| ==>
              && h.threads[a.tid].pc == AtStep(i + 1) && after.rows[i].startedAt == h.clock
              && after.rows[i].outcome == StepRunning && after.rows[i].command == None
    ensures i < |run.rows| && after.rows[i] != run.rows[i] ==> RowChanges(h, a, run, after, id, i, h.clock)
  {
    if i < |run.rows| {
      assert RowEvolves(run.rows[i], after.rows[i]);
    }
    hide AllButLastSucceeded, WaitsInFull;
  }

  /**
   What one action does to a row: starts it, settles it, or leaves it but for its command if it
   ended with its run.
   */
  lemma RowStep(h: Hub, a: Action, h': Hub, id: int, i: nat)
    requires Inv(h) && Inv(h') && HasRow(h', id, i) && Evolves(h.table, h'.table)
    requires if id in h.table.runs then Changes(h, a, h', id) else (a.Admit? || a.Record?) && Requests(h, a, h', id)
    ensures id in h.table.runs
    ensures !HasRow(h, id, i) ==>
              && DriverIs(h, a, id) && h.threads[a.tid].pc == AtStep(i + 1) && RowOf(h', id, i).startedAt == h.clock
              && RowOf(h', id, i).outcome == StepRunning && RowOf(h', id, i).command == None
    ensures HasRow(h, id, i) && RowOf(h', id, i) != RowOf(h, id, i) ==>
              RowChanges(h, a, h.table.runs[id], h'.table.runs[id], id, i, h.clock)
  {
    RunFacts(h', id);
    hide Inv, RunOk, Driven, EndedEarly, RowChanges;
    if id in h.table.runs {
      RunFacts(h, id);
      var (run, after) := (h.table.runs[id], h'.table.runs[id]);
      if DriverIs(h, a, id) {
        DrivenRow(h, a, run, after, id, i);
      } else if after != run {
        EarlyRow(h, a, run, after, id, i, h.clock);
      }
    }
  }

  lemma RowBefore(states: seq<Hub>, actions: seq<Action>, k: nat, id: int, i: nat)
    requires History(states, actions) && 0 < k < |states| && HasRow(states[k], id, i)
    ensures var (h, a, h') := (states[k - 1], actions[k - 1], states[k]);
            && id in h.table.runs
            && (!HasRow(h, id, i) ==>
                  && DriverIs(h, a, id) && h.threads[a.tid].pc == AtStep(i + 1) && RowOf(h', id, i).startedAt == h.clock
                  && RowOf(h', id, i).outcome == StepRunning && RowOf(h', id, i).command == None)
            && (HasRow(h, id, i) && RowOf(h', id, i) != RowOf(h, id, i) ==>
                  RowChanges(h, a, h.table.runs[id], h'.table.runs[id], id, i, h.clock))
            && (HasRow(h, id, i) ==> RowEvolves(RowOf(h, id, i), RowOf(h', id, i)))
  {
    hide Inv, Apply, Enabled, RowChanges, Changes, Requests, RowEvolves, Init, DriverIs;
    NextChanges(states, actions, k - 1, id);
    RowStep(states[k - 1], actions[k - 1], states[k], id, i);
  }

  /** A step's row was made by the run's driver as it came to the step, at the time the row says it started. */
  lemma {:induction false} StepsWereStarted(states: seq<Hub>, actions: seq<Action>, k: nat, id: int, i: nat)
    returns (j: nat)
    requires History(states, actions) && k < |states| && HasRow(states[k], id, i)
    ensures j < k && DriverIs(states[j], actions[j], id) && states[j].threads[actions[j].tid].pc == AtStep(i + 1)
    ensures RowOf(states[k], id, i).startedAt == states[j].clock && !HasRow(states[j], id, i)
  {
    hide Apply, Enabled, RowChanges, DriverIs;
    RowBefore(states, actions, k, id, i);
    if HasRow(states[k - 1], id, i) {
      j := StepsWereStarted(states, actions, k - 1, id, i);
    } else {
      j := k - 1;
    }
  }

  /**
   A step that set something has the outcome its driver learned, with the command it
   learned it of: acknowledged, refused after it was recorded, or never recorded at all.
   */
  lemma {:induction false} OutcomesWereLearned(states: seq<Hub>, actions: seq<Action>, k: nat, id: int, i: nat)
    returns (j: nat)
    requires History(states, actions) && k < |states| && HasRow(states[k], id, i) && !RowOf(states[k], id, i).wait
    requires RowOf(states[k], id, i).outcome == StepSucceeded || RowOf(states[k], id, i).outcome == StepFailed
    ensures j < k && DriverIs(states[j], actions[j], id)
    ensures var row := RowOf(states[k], id, i);
            && states[j].threads[actions[j].tid].pc == Finishing(i + 1, row.outcome == StepSucceeded, row.command)
            && row.finishedAt == Some(states[j].clock)
            && WasDecided(states, actions, j, id, i + 1, row.outcome == StepSucceeded, row.command)
  {
    hide Apply, Enabled, WasDecided;
    RowBefore(states, actions, k, id, i);
    if HasRow(states[k - 1], id, i) && RowOf(states[k - 1], id, i) == RowOf(states[k], id, i) {
      j := OutcomesWereLearned(states, actions, k - 1, id, i);
    } else {
      j := k - 1;
      FinishingWasDecided(states, actions, j, actions[j].tid);
    }
  }

  /** A wait is over once its run is resumed, and a step that ended early did so with its run. */
  lemma {:induction false} OtherOutcomes(states: seq<Hub>, actions: seq<Action>, k: nat, id: int, i: nat)
    returns (j: nat)
    requires History(states, actions) && k < |states| && HasRow(states[k], id, i)
    requires RowOf(states[k], id, i).outcome == StepCancelled
          || (RowOf(states[k], id, i).wait && RowOf(states[k], id, i).outcome != StepRunning)
    ensures j < k && HasRow(states[j], id, i) && RowOf(states[j], id, i).outcome == StepRunning
    ensures var (row, run) := (RowOf(states[k], id, i), states[k].table.runs[id]);
            && row.finishedAt == Some(states[j].clock)
            && if row.outcome == StepCancelled then run.status == Cancelled && run.finishedAt == row.finishedAt
               else row.outcome == StepSucceeded && DriverIs(states[j], actions[j], id)
                    && states[j].threads[actions[j].tid].pc == Resuming
  {
    hide Apply, Enabled, Inv, Evolves;
    RowBefore(states, actions, k, id, i);
    if HasRow(states[k - 1], id, i) && RowOf(states[k - 1], id, i).outcome != StepRunning {
      j := OtherOutcomes(states, actions, k - 1, id, i);
      EndStays(states, actions, k - 1, id);
    } else {
      j := k - 1;
    }
  }

  lemma EndStays(states: seq<Hub>, actions: seq<Action>, k: nat, id: int)
    requires History(states, actions) && k + 1 < |states| && id in states[k].table.runs
             && id in states[k + 1].table.runs
    ensures var (a, b) := (states[k].table.runs[id], states[k + 1].table.runs[id]);
            !Active(a.status) ==> b.status == a.status && b.finishedAt == a.finishedAt
  {
    AlwaysEvolves(states, actions, k, k + 1);
  }

  // ---------- Commands ----------

  /** The driver of the run is at the step and sends what it sets, and the command is recorded as what it is. */
  ghost predicate Records(h: Hub, a: Action, command: Command) {
    && a.Advance? && a.result != NotRecorded && a.tid in h.threads && h.threads[a.tid].pc == Sending(command.position)
    && var id := h.threads[a.tid].run;
       && id in h.table.runs && command.run == Some(id) && command.sentAt == h.clock
       && command.position <= |h.table.runs[id].steps|
       && (match h.table.runs[id].steps[command.position - 1]
           case Set(sensor, property, value) =>
             command.sensor == sensor && command.property == property && command.value == value
           case Wait(_) => false)
  }

  /** Commands stay as recorded, but that a deleted run's name no run any more. */
  ghost predicate CommandStays(c: Command, c': Command, t: Table) {
    c' == c || (c.run.Some? && c.run.value !in t.runs && c' == c.(run := None))
  }

  ghost predicate CommandsStay(h: Hub, h': Hub) {
    && |h.commands| <= |h'.commands|
    && forall c :: 0 <= c < |h.commands| ==> CommandStays(h.commands[c], h'.commands[c], h'.table)
  }

  lemma CommandStep(h: Hub, a: Action)
    requires Enabled(h, a) && Inv(h)
    ensures var h' := Apply(h, a);
            && CommandsStay(h, h')
            && (forall c :: |h.commands| <= c < |h'.commands| ==> c == |h.commands| && Records(h, a, h'.commands[c]))
  {
    hide AdmitRun, ResumeRun, LatestRunCommand, WaitRun, StartRunStep, FinishRunStep, FinishRun, CancelRun, Inv;
    if a.Advance? {
      SendingFacts(h, a.tid);
    }
  }

  /**
   However the hub dies and whatever is deleted, a command stays in the log, and stays its run's
   while there is the run.
   */
  lemma {:induction false} CommandsAreKept(states: seq<Hub>, actions: seq<Action>, j: nat, k: nat)
    requires History(states, actions) && j <= k < |states|
    ensures CommandsStay(states[j], states[k])
    decreases k
  {
    hide Apply, Enabled, Inv;
    if j < k {
      CommandsAreKept(states, actions, j, k - 1);
      AlwaysInv(states, actions, k - 1);
      CommandStep(states[k - 1], actions[k - 1]);
      AlwaysInv(states, actions, j);
      CommandsAreOld(states[j]);
      AlwaysEvolves(states, actions, j, k - 1);
      AlwaysEvolves(states, actions, k - 1, k);
      StaysOn(states[j], states[k - 1], states[k]);
    }
  }

  lemma StaysOn(h: Hub, h': Hub, h'': Hub)
    requires CommandsStay(h, h') && CommandsStay(h', h'') && Evolves(h'.table, h''.table)
    requires forall c :: 0 <= c < |h.commands| && h.commands[c].run.Some? ==> h.commands[c].run.value < h'.table.nextId
    ensures CommandsStay(h, h'')
  {
    forall c | 0 <= c < |h.commands| ensures CommandStays(h.commands[c], h''.commands[c], h''.table) {
      assert CommandStays(h.commands[c], h'.commands[c], h'.table);
      assert CommandStays(h'.commands[c], h''.commands[c], h''.table);
    }
  }

  lemma CommandsAreOld(h: Hub)
    requires Inv(h)
    ensures forall c :: 0 <= c < |h.commands| && h.commands[c].run.Some? ==> h.commands[c].run.value < h.table.nextId
  {
    assert forall c :: 0 <= c < |h.commands| ==> CommandOk(h.commands[c], h.table, h.clock);
  }

  /** Every command was recorded by the driver of the run, as it came to send what the step of that position sets. */
  lemma {:induction false} CommandsWereSent(states: seq<Hub>, actions: seq<Action>, k: nat, c: nat) returns (j: nat)
    requires History(states, actions) && k < |states| && c < |states[k].commands|
    ensures j < k && |states[j].commands| == c < |states[j + 1].commands|
    ensures Records(states[j], actions[j], states[j + 1].commands[c])
    ensures CommandStays(states[j + 1].commands[c], states[k].commands[c], states[k].table)
  {
    hide Apply, Enabled, Inv, Records;
    AlwaysInv(states, actions, k - 1);
    CommandStep(states[k - 1], actions[k - 1]);
    if c < |states[k - 1].commands| {
      j := CommandsWereSent(states, actions, k - 1, c);
      CommandsAreKept(states, actions, j + 1, k);
    } else {
      j := k - 1;
      assert Records(states[j], actions[j], states[k].commands[c]);
    }
  }

  /** In the whole of a history no step of any run has a command recorded twice, deleted since or not. */
  lemma EachStepSendsOnce(states: seq<Hub>, actions: seq<Action>, i: nat, j: nat)
    requires History(states, actions) && i < |actions| && j < |actions|
    requires |states[i].commands| < |states[i + 1].commands| && |states[j].commands| < |states[j + 1].commands|
    requires var (a, b) := (states[i + 1].commands[|states[i].commands|], states[j + 1].commands[|states[j].commands|]);
             a.run == b.run && a.position == b.position
    ensures i == j
  {
    if i < j {
      SentBefore(states, actions, i, j);
    } else if j < i {
      SentBefore(states, actions, j, i);
    }
  }

  lemma SentBefore(states: seq<Hub>, actions: seq<Action>, i: nat, j: nat)
    requires History(states, actions) && i < j < |actions|
    requires |states[i].commands| < |states[i + 1].commands| && |states[j].commands| < |states[j + 1].commands|
    ensures var (a, b) := (states[i + 1].commands[|states[i].commands|], states[j + 1].commands[|states[j].commands|]);
            !(a.run == b.run && a.position == b.position)
  {
    hide Inv, Apply, Enabled;
    var (c, d) := (|states[i].commands|, |states[j].commands|);
    AlwaysInv(states, actions, i);
    AlwaysInv(states, actions, j);
    CommandStep(states[i], actions[i]);
    CommandStep(states[j], actions[j]);
    CommandsAreKept(states, actions, i + 1, j);
    assert Records(states[j], actions[j], states[j + 1].commands[d]);
    SendingFacts(states[j], actions[j].tid);
    assert CommandStays(states[i + 1].commands[c], states[j].commands[c], states[j].table);
  }

  /**
   A run marked succeeded did all it was asked to do when it was admitted: every step that
   sets something had its own command acknowledged, and every wait lasted its time.
   */
  lemma SuccessMeansAllWasDone(states: seq<Hub>, actions: seq<Action>, k: nat, id: int, i: nat)
    returns (admitted: nat, verdict: nat)
    requires History(states, actions) && k < |states|
    requires id in states[k].table.runs && states[k].table.runs[id].status == Succeeded
    requires i < |states[k].table.runs[id].steps|
    ensures admitted < k && actions[admitted].Admit? && id == states[admitted].table.nextId
    ensures actions[admitted].steps == states[k].table.runs[id].steps
    ensures HasRow(states[k], id, i) && RowOf(states[k], id, i).outcome == StepSucceeded
    ensures var row := RowOf(states[k], id, i);
            match actions[admitted].steps[i]
            case Wait(seconds) =>
              row.finishedAt.Some? && row.finishedAt.value >= row.startedAt + seconds * 1_000_000_000
            case Set(_, _, _) =>
              && row.command.Some? && verdict < k && DriverIs(states[verdict], actions[verdict], id)
              && (exists c: nat :: row.command == Some(c)
                                   && states[verdict].threads[actions[verdict].tid].pc == Awaiting(i + 1, c))
              && actions[verdict].acknowledged
  {
    hide Inv, Apply, Enabled, Ends;
    verdict := 0;
    admitted := RunsWereRequested(states, actions, k, id);
    StepsStartInOrder(states, actions, k, id);
    AdmittedIfSucceeded(states, actions, k, id, admitted);
    SuccessfulRow(states, actions, k, id, i);
    if actions[admitted].steps[i].Wait? {
      WaitsLastTheirTime(states, actions, k, id, i);
    } else {
      var j := OutcomesWereLearned(states, actions, k, id, i);
      var row := RowOf(states[k], id, i);
      verdict :| verdict < j && Decides(states[verdict], actions[verdict], id, i + 1, true, row.command);
    }
  }

  lemma AdmittedIfSucceeded(states: seq<Hub>, actions: seq<Action>, k: nat, id: int, i: nat)
    requires History(states, actions) && i < k < |states|
    requires id in states[k].table.runs && states[k].table.runs[id].status == Succeeded
    requires Requests(states[i], actions[i], states[i + 1], id)
    ensures actions[i].Admit?
  {
    if actions[i].Record? {
      assert Enabled(states[i], actions[i]);
      AlwaysEvolves(states, actions, i + 1, k);
    }
  }

  lemma SuccessfulRow(states: seq<Hub>, actions: seq<Action>, k: nat, id: int, i: nat)
    requires History(states, actions) && k < |states|
    requires id in states[k].table.runs && states[k].table.runs[id].status == Succeeded
    requires i < |states[k].table.runs[id].steps|
    ensures HasRow(states[k], id, i) && RowOf(states[k], id, i).outcome == StepSucceeded
    ensures RowOf(states[k], id, i).wait == states[k].table.runs[id].steps[i].Wait?
  {
    AlwaysInv(states, actions, k);
    RunFacts(states[k], id);
  }
}
