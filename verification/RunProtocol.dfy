/**
 The run protocol: the executors, the scheduler's resume entries and the start
 and death of the hub, as a state machine whose every step is one store
 transaction or one in-memory hand-over. An executor can die between any two.
 */
module RunProtocol {
  import opened Wrappers
  import opened RunTable

  /**
   A recorded command; its ID is its place in the log. The store keeps the run,
   sensor, property, value and time. The position is what the proof keeps track of,
   and no step of the protocol reads it.
   */
  datatype Command = Command(
    run: Option<int>,
    position: Position,
    sensor: int,
    property: string,
    value: string,
    sentAt: Instant)

  /** Where a goroutine that drives a run stands. */
  datatype Pc =
    | Loaded(snapshot: Run)                 // startup read the run, and has not looked at it yet
    | Resuming                              // its wait is over; the store has not been told
    | Reading                               // the store set it running; the row has not been read back
    | Begin(snapshot: Run)                  // about to execute this copy of the row
    | Settling(position: Position, since: Instant)
    | AtStep(position: Position)
    | Sending(position: Position)                // the step is recorded as started, its command is not
    | Awaiting(position: Position, command: nat)
    | Finishing(position: Position, ok: bool, sent: Option<int>)
    | Failing(position: Position)
    | Ending
    | Rescheduling(resumeAt: Instant)       // the store says waiting; the scheduler has not been told

  datatype Thread = Thread(run: int, steps: seq<Step>, pc: Pc)

  datatype Hub = Hub(
    table: Table,
    commands: seq<Command>,
    threads: map<nat, Thread>,
    resumes: map<int, Instant>,             // the scheduler's resume entries
    clock: Instant,
    up: bool)

  // ---------- Looking up the command of an interrupted step ----------

  predicate Matches(command: Command, run: int, step: Step, since: Instant) {
    step.Set? && command.run == Some(run) && command.sensor == step.sensor && command.property == step.property
    && command.sentAt >= since
  }

  /** The newest matching command by time sent, then by ID. */
  function LatestRunCommand(commands: seq<Command>, run: int, step: Step, since: Instant): (found: Option<nat>)
    ensures found.Some? ==> found.value < |commands| && Matches(commands[found.value], run, step, since)
    ensures found.None? ==> forall i :: 0 <= i < |commands| ==> !Matches(commands[i], run, step, since)
    ensures found.Some? ==> forall i :: 0 <= i < |commands| && Matches(commands[i], run, step, since) ==>
                                          commands[i].sentAt < commands[found.value].sentAt
                                          || (commands[i].sentAt == commands[found.value].sentAt && i <= found.value)
  {
    if commands == [] then None
    else
      var last := |commands| - 1;
      var earlier := LatestRunCommand(commands[..last], run, step, since);
      if Matches(commands[last], run, step, since)
         && (earlier.None? || commands[last].sentAt >= commands[earlier.value].sentAt)
      then Some(last)
      else earlier
  }

  // ---------- Actions ----------

  /** How sending went: an error before the command was recorded, an error after, or sent. */
  datatype SendResult = NotRecorded | RecordedThenFailed | Sent

  datatype Action =
    | Tick(now: Instant)
    | Admit(automation: int, steps: seq<Step>, mode: Mode, tid: nat)
    | Record(automation: int, steps: seq<Step>, status: RunStatus)
    | Cancel(automation: int, run: int)
    | DropEntry(run: int)
    | Pop(run: int, tid: nat)
    | Delete(runs: set<int>)
    | Crash
    | Start
    | Skip(tid: nat)
    | Advance(tid: nat, result: SendResult, acknowledged: bool)

  function Goto(h: Hub, tid: nat, pc: Pc): Hub
    requires tid in h.threads
  {
    h.(threads := h.threads[tid := h.threads[tid].(pc := pc)])
  }

  function Exit(h: Hub, tid: nat): Hub {
    h.(threads := h.threads - {tid})
  }

  /** The row of the step the run is on, as the executor looks it up in its copy. */
  function CurrentRow(run: Run): (found: Option<StepRow>)
    ensures found.Some? <==> exists i :: 0 <= i < |run.rows| && run.rows[i].position == run.currentStep
    ensures found.Some? ==> found.value in run.rows && found.value.position == run.currentStep
  {
    FindRow(run.rows, run.currentStep)
  }

  function FindRow(rows: seq<StepRow>, position: nat): (found: Option<StepRow>)
    ensures found.Some? <==> exists i :: 0 <= i < |rows| && rows[i].position == position
    ensures found.Some? ==> found.value in rows && found.value.position == position
  {
    if rows == [] then None
    else if rows[0].position == position then Some(rows[0])
    else
      var found := FindRow(rows[1..], position);
      assert forall i :: 0 < i < |rows| ==> rows[i] == rows[1..][i - 1];
      found
  }

  /** The first thing an executor does with its copy of the run. */
  function Enter(run: Run): Pc {
    match CurrentRow(run)
    case None => AtStep(1)
    case Some(row) =>
      match row.outcome
      case StepSucceeded => AtStep(row.position + 1)
      case StepFailed => Failing(row.position)
      case _ => Settling(row.position, row.startedAt)
  }

  predicate Enabled(h: Hub, a: Action) {
    match a
    case Tick(now) => h.clock <= now
    case Start => !h.up
    case Crash => h.up
    case Admit(_, _, _, tid) => h.up && tid !in h.threads
    case Record(_, _, status) => h.up && (status.Missed? || status.Failed?)
    case Cancel(automation, run) => h.up
    case DropEntry(run) => h.up && !IsActive(h.table, run)
    case Pop(run, tid) => h.up && run in h.resumes && h.resumes[run] <= h.clock && tid !in h.threads
    case Delete(_) => h.up
    case Skip(tid) => h.up && tid in h.threads && h.threads[tid].pc.Loaded? && !IsActive(h.table, h.threads[tid].run)
    case Advance(tid, result, _) =>
      && h.up && tid in h.threads
      && var th := h.threads[tid];
      // The clock moves on between a step's finish and the next step's start.
      && (th.pc.AtStep? ==> StepsFinishedBefore(h.table, th.run, h.clock))
      // A command names its run, so none is recorded for a deleted one.
      && (th.pc.Sending? && th.run !in h.table.runs ==> result.NotRecorded?)
  }

  predicate StepsFinishedBefore(t: Table, run: int, clock: Instant) {
    run in t.runs ==>
      forall i | 0 <= i < |t.runs[run].rows| ::
        t.runs[run].rows[i].finishedAt.Some? ==> t.runs[run].rows[i].finishedAt.value < clock
  }

  function Apply(h: Hub, a: Action): Hub
    requires Enabled(h, a)
  {
    match a
    case Tick(now) => h.(clock := now)
    case Admit(automation, steps, mode, tid) =>
      var (table, admission) := AdmitRun(h.table, automation, steps, mode, h.clock);
      var after := h.(table := table);
      if admission.status.Running? then after.(threads := h.threads[tid := Thread(admission.run, steps, Reading)])
      else after
    case Record(automation, steps, status) =>
      h.(table := InsertRun(h.table, automation, steps, status, h.clock, Some(h.clock)))
    case Cancel(automation, run) =>
      (match CancelRun(h.table, automation, run, h.clock)
       case CancelOk(table) => h.(table := table)
       case CancelRefused(_) => h)
    case DropEntry(run) => h.(resumes := h.resumes - {run})
    case Pop(run, tid) => h.(resumes := h.resumes - {run}, threads := h.threads[tid := Thread(run, [], Resuming)])
    case Delete(runs) =>
      h.(table := DeleteRuns(h.table, runs), commands := Unlinked(h.commands, runs))
    case Crash => h.(threads := map[], resumes := map[], up := false)
    case Start =>
      var loaded :=
        map id: nat | id in LoadedIds(h.table) :: Thread(id, h.table.runs[id].steps, Loaded(h.table.runs[id]));
      h.(threads := loaded, up := true)
    case Skip(tid) => Exit(h, tid)
    case Advance(tid, result, acknowledged) => AdvanceThread(h, tid, result, acknowledged)
  }

  function LoadedIds(t: Table): set<int> {
    set id | id in t.runs && Active(t.runs[id].status)
  }

  /** Deleting a run clears it from the commands it sent. */
  function Unlink(command: Command, runs: set<int>): Command {
    if command.run.Some? && command.run.value in runs then command.(run := None) else command
  }

  function Unlinked(commands: seq<Command>, runs: set<int>): seq<Command> {
    seq(|commands|, i requires 0 <= i < |commands| => Unlink(commands[i], runs))
  }

  /** Startup looks at one of the active runs it read. */
  function Launch(h: Hub, tid: nat): Hub
    requires tid in h.threads && h.threads[tid].pc.Loaded?
  {
    var snapshot := h.threads[tid].pc.snapshot;
    if snapshot.status.Waiting? && snapshot.resumeAt.Some? && snapshot.resumeAt.value > h.clock then
      HandOver(h, tid, snapshot.resumeAt.value)
    else if snapshot.status.Waiting? then Goto(h, tid, Resuming)
    else Goto(h, tid, Begin(snapshot))
  }

  function HandOver(h: Hub, tid: nat, resumeAt: Instant): Hub
    requires tid in h.threads
  {
    Exit(h.(resumes := h.resumes[h.threads[tid].run := resumeAt]), tid)
  }

  function Resume(h: Hub, tid: nat): Hub
    requires tid in h.threads
  {
    match ResumeRun(h.table, h.threads[tid].run, h.clock)
    case None => Exit(h, tid)
    case Some(table) => Goto(h.(table := table), tid, Reading)
  }

  function ReadBack(h: Hub, tid: nat): Hub
    requires tid in h.threads
  {
    var id := h.threads[tid].run;
    if id in h.table.runs then
      h.(threads := h.threads[tid := Thread(id, h.table.runs[id].steps, Begin(h.table.runs[id]))])
    else Exit(h, tid)
  }

  /** Takes the command an interrupted step already sent, or goes on to send it. */
  function LookUp(h: Hub, tid: nat): Hub
    requires tid in h.threads && h.threads[tid].pc.Settling?
  {
    var th := h.threads[tid];
    var position := th.pc.position;
    if position <= |th.steps| then
      match LatestRunCommand(h.commands, th.run, th.steps[position - 1], th.pc.since)
      case None => Goto(h, tid, Sending(position))
      case Some(command) => Goto(h, tid, Awaiting(position, command))
    else h
  }

  function StartStep(h: Hub, tid: nat): Hub
    requires tid in h.threads && h.threads[tid].pc.AtStep?
  {
    var th := h.threads[tid];
    var position := th.pc.position;
    if position > |th.steps| then Goto(h, tid, Ending)
    else if th.steps[position - 1].Wait? then StartWait(h, tid, position, WaitUntil(h.clock, th.steps[position - 1]))
    else StartSet(h, tid, position)
  }

  function StartWait(h: Hub, tid: nat, position: Position, resumeAt: Instant): Hub
    requires tid in h.threads
  {
    match WaitRun(h.table, h.threads[tid].run, position, h.clock, resumeAt)
    case None => Exit(h, tid)
    case Some(table) => Goto(h.(table := table), tid, Rescheduling(resumeAt))
  }

  function StartSet(h: Hub, tid: nat, position: Position): Hub
    requires tid in h.threads
  {
    match StartRunStep(h.table, h.threads[tid].run, position, h.clock)
    case None => Exit(h, tid)
    case Some(table) => Goto(h.(table := table), tid, Sending(position))
  }

  function Send(h: Hub, tid: nat, result: SendResult): Hub
    requires tid in h.threads && h.threads[tid].pc.Sending?
  {
    var th := h.threads[tid];
    var position := th.pc.position;
    if result.NotRecorded? || position > |th.steps| || th.steps[position - 1].Wait? then
      Goto(h, tid, Finishing(position, false, None))
    else
      var id := |h.commands|;
      var after := h.(commands := h.commands + [CommandFor(th.run, position, th.steps[position - 1], h.clock)]);
      Goto(after, tid, if result.Sent? then Awaiting(position, id) else Finishing(position, false, Some(id)))
  }

  function CommandFor(run: int, position: Position, step: Step, at: Instant): Command
    requires step.Set?
  {
    Command(Some(run), position, step.sensor, step.property, step.value, at)
  }

  function FinishStep(h: Hub, tid: nat): Hub
    requires tid in h.threads && h.threads[tid].pc.Finishing?
  {
    var Finishing(position, ok, sent) := h.threads[tid].pc;
    var table := FinishRunStep(h.table, h.threads[tid].run, position - 1, if ok then StepSucceeded else StepFailed,
                               sent, h.clock);
    Goto(h.(table := table), tid, if ok then AtStep(position + 1) else Failing(position))
  }

  function Close(h: Hub, tid: nat, status: RunStatus): Hub
    requires tid in h.threads
  {
    match FinishRun(h.table, h.threads[tid].run, status, h.clock)
    case None => Exit(h, tid)
    case Some(table) => Exit(h.(table := table), tid)
  }

  function AdvanceThread(h: Hub, tid: nat, result: SendResult, acknowledged: bool): Hub
    requires tid in h.threads
  {
    match h.threads[tid].pc
    case Loaded(_) => Launch(h, tid)
    case Resuming => Resume(h, tid)
    case Reading => ReadBack(h, tid)
    case Begin(snapshot) => Goto(h, tid, Enter(snapshot))
    case Settling(_, _) => LookUp(h, tid)
    case AtStep(_) => StartStep(h, tid)
    case Sending(_) => Send(h, tid, result)
    case Awaiting(position, command) => Goto(h, tid, Finishing(position, acknowledged, Some(command)))
    case Finishing(_, _, _) => FinishStep(h, tid)
    case Failing(_) => Close(h, tid, Failed)
    case Ending => Close(h, tid, Succeeded)
    case Rescheduling(resumeAt) => HandOver(h, tid, resumeAt)
  }
}
