/**
 Commands in flight: what the tracker keeps in memory about each, the guarded
 status updates of the command history, and the race between acknowledgement,
 timeout and failure for every command.
 */
module CommandTracking {
  import opened Wrappers

  datatype CommandStatus = Sent | Acknowledged | TimedOut | Failed

  datatype PendingCommand = PendingCommand(id: int, sensor: int, property: string, run: Option<int>, sentAt: Instant)

  // ---------- The command history ----------

  datatype CommandRow = CommandRow(command: PendingCommand, status: CommandStatus,
                                   acknowledged: Option<(string, Instant)>)

  /** The guarded update: it takes effect, and says so, only on a command still sent. */
  function MarkRow(rows: map<int, CommandStatus>, id: int, status: CommandStatus): (map<int, CommandStatus>, bool) {
    if id in rows && rows[id].Sent? then (rows[id := status], true) else (rows, false)
  }

  ghost function StatusesOf(rows: map<int, CommandRow>): map<int, CommandStatus> {
    map id | id in rows :: rows[id].status
  }

  class CommandHistory {
    var rows: map<int, CommandRow>

    constructor (rows: map<int, CommandRow>)
      ensures this.rows == rows
    {
      this.rows := rows;
    }

    ghost function Statuses(): map<int, CommandStatus>
      reads this
    {
      StatusesOf(rows)
    }

    method MarkAcknowledged(id: int, value: string, at: Instant) returns (updated: bool)
      modifies this
      ensures Statuses() == MarkRow(old(Statuses()), id, Acknowledged).0
      ensures updated == MarkRow(old(Statuses()), id, Acknowledged).1
      ensures updated ==> id in rows && rows[id].acknowledged == Some((value, at))
      ensures rows.Keys == old(rows).Keys
              && forall other :: other in rows ==> rows[other].command == old(rows)[other].command
      ensures forall other :: other in rows && (other != id || !updated) ==> rows[other] == old(rows)[other]
    {
      updated := id in rows && rows[id].status.Sent?;
      if updated {
        rows := rows[id := rows[id].(status := Acknowledged, acknowledged := Some((value, at)))];
      }
    }

    method MarkTimedOut(id: int) returns (updated: bool)
      modifies this
      ensures Statuses() == MarkRow(old(Statuses()), id, TimedOut).0
      ensures updated == MarkRow(old(Statuses()), id, TimedOut).1
      ensures rows.Keys == old(rows).Keys
              && forall other :: other in rows ==> rows[other].command == old(rows)[other].command
      ensures forall other :: other in rows && (other != id || !updated) ==> rows[other] == old(rows)[other]
    {
      updated := id in rows && rows[id].status.Sent?;
      if updated {
        rows := rows[id := rows[id].(status := TimedOut)];
      }
    }

    method MarkFailed(id: int) returns (updated: bool)
      modifies this
      ensures Statuses() == MarkRow(old(Statuses()), id, Failed).0
      ensures updated == MarkRow(old(Statuses()), id, Failed).1
      ensures rows.Keys == old(rows).Keys
              && forall other :: other in rows ==> rows[other].command == old(rows)[other].command
      ensures forall other :: other in rows && (other != id || !updated) ==> rows[other] == old(rows)[other]
    {
      updated := id in rows && rows[id].status.Sent?;
      if updated {
        rows := rows[id := rows[id].(status := Failed)];
      }
    }
  }

  // ---------- What the tracker keeps under its lock ----------

  /** The commands tracked, and for each the outcome channels waiting on it. C stands for a channel. */
  datatype Registry<C> = Registry(commands: map<int, PendingCommand>, outcomes: map<int, seq<C>>)

  function Tracked<C>(r: Registry<C>, command: PendingCommand, channel: C): Registry<C> {
    Registry(r.commands[command.id := command], r.outcomes[command.id := [channel]])
  }

  function Awaited<C>(r: Registry<C>, id: int, channel: C): Registry<C>
    requires id in r.outcomes
  {
    r.(outcomes := r.outcomes[id := r.outcomes[id] + [channel]])
  }

  function Settled<C>(r: Registry<C>, id: int): Registry<C> {
    Registry(r.commands - {id}, r.outcomes - {id})
  }

  /** Each command has its channels, and no channel is registered twice. */
  ghost predicate RegistryOk<C>(r: Registry<C>) {
    && r.commands.Keys == r.outcomes.Keys
    && (forall id :: id in r.commands ==> r.commands[id].id == id)
    && (forall id, i, j :: id in r.outcomes && 0 <= i < j < |r.outcomes[id]| ==> r.outcomes[id][i] != r.outcomes[id][j])
    && (forall a, b, i :: a in r.outcomes && b in r.outcomes && a != b && 0 <= i < |r.outcomes[a]| ==>
          r.outcomes[a][i] !in r.outcomes[b])
  }

  lemma TrackedOk<C>(r: Registry<C>, command: PendingCommand, channel: C)
    requires RegistryOk(r)
    requires forall id :: id in r.outcomes ==> channel !in r.outcomes[id]
    ensures RegistryOk(Tracked(r, command, channel))
  {
  }

  lemma AwaitedOk<C>(r: Registry<C>, id: int, channel: C)
    requires RegistryOk(r) && id in r.outcomes
    requires forall other :: other in r.outcomes ==> channel !in r.outcomes[other]
    ensures RegistryOk(Awaited(r, id, channel))
  {
    var r' := Awaited(r, id, channel);
    assert forall other :: other in r.outcomes && other != id ==> r'.outcomes[other] == r.outcomes[other];
    assert r'.outcomes[id] == r.outcomes[id] + [channel];
  }

  lemma SettledOk<C>(r: Registry<C>, id: int)
    requires RegistryOk(r)
    ensures RegistryOk(Settled(r, id))
    ensures id in r.outcomes ==>
              forall other :: other in Settled(r, id).outcomes ==>
                forall i :: 0 <= i < |r.outcomes[id]| ==> r.outcomes[id][i] !in r.outcomes[other]
  {
  }

  /** A buffered channel for one status. */
  class OutcomeChannel {
    var buffer: seq<CommandStatus>

    constructor ()
      ensures buffer == []
    {
      buffer := [];
    }

    /** Would block if the buffer were full, so its caller must know it is not. */
    method Send(status: CommandStatus)
      requires buffer == []
      modifies this
      ensures buffer == [status]
    {
      buffer := [status];
    }
  }

  /** Every channel of the commands given holds its command's final status, once, and nothing before there is one. */
  ghost predicate Told(outcomes: map<int, seq<OutcomeChannel>>, statuses: map<int, CommandStatus>)
    reads ChannelsOf(outcomes)
  {
    forall id, i :: id in outcomes && 0 <= i < |outcomes[id]| ==> HoldsStatus(outcomes[id][i], statuses, id)
  }

  ghost predicate HoldsStatus(channel: OutcomeChannel, statuses: map<int, CommandStatus>, id: int)
    reads channel
  {
    id in statuses && channel.buffer == if statuses[id] == Sent then [] else [statuses[id]]
  }

  ghost function ChannelsOf(outcomes: map<int, seq<OutcomeChannel>>): set<OutcomeChannel> {
    set id, i | id in outcomes && 0 <= i < |outcomes[id]| :: outcomes[id][i]
  }

  /** Sent longest ago, and of those sent together the lowest ID. */
  ghost predicate Older(a: PendingCommand, b: PendingCommand) {
    a.sentAt < b.sentAt || (a.sentAt == b.sentAt && a.id <= b.id)
  }

  ghost predicate ForReading(command: PendingCommand, sensor: int, property: string) {
    command.sensor == sensor && command.property == property
  }

  class CommandTracker {
    var commands: map<int, PendingCommand>
    var cancels: set<int>
    var outcomes: map<int, seq<OutcomeChannel>>

    ghost function Contents(): Registry<OutcomeChannel>
      reads this
    {
      Registry(commands, outcomes)
    }

    ghost function Channels(): set<OutcomeChannel>
      reads this
    {
      ChannelsOf(outcomes)
    }

    /** Every registered channel is empty, so a send made under the lock never blocks. */
    ghost predicate Valid()
      reads this, Channels()
    {
      && RegistryOk(Contents())
      && cancels <= commands.Keys
      && forall channel :: channel in Channels() ==> channel.buffer == []
    }

    constructor ()
      ensures Valid() && Contents() == Registry(map[], map[])
    {
      commands := map[];
      cancels := {};
      outcomes := map[];
    }

    /** The locked part of tracking a command: expired ones get no timer. */
    method Track(command: PendingCommand, expired: bool) returns (outcome: OutcomeChannel)
      requires Valid()
      modifies this
      ensures Valid() && fresh(outcome)
      ensures Contents() == Tracked(old(Contents()), command, outcome)
      ensures command.id in commands && commands[command.id] == command && outcomes[command.id] == [outcome]
      ensures outcome.buffer == []
      ensures cancels == if expired then old(cancels) - {command.id} else old(cancels) + {command.id}
    {
      hide RegistryOk;
      outcome := new OutcomeChannel();
      TrackedOk(Contents(), command, outcome);
      cancels := cancels - {command.id};
      commands := commands[command.id := command];
      if !expired {
        cancels := cancels + {command.id};
      }
      outcomes := outcomes[command.id := [outcome]];
    }

    /** Another channel for a tracked command, beside those already waiting. */
    method Await(id: int) returns (outcome: OutcomeChannel?)
      requires Valid()
      modifies this
      ensures Valid()
      ensures id !in old(commands) ==> outcome == null && Contents() == old(Contents())
      ensures id in old(commands) ==>
                && outcome != null && fresh(outcome) && outcome.buffer == []
                && Contents() == Awaited(old(Contents()), id, outcome)
                && commands == old(commands) && outcomes[id] == old(outcomes)[id] + [outcome]
      ensures cancels == old(cancels)
    {
      outcome := null;
      if id in commands {
        outcome := new OutcomeChannel();
        outcomes := outcomes[id := outcomes[id] + [outcome]];
      }
    }

    /** The oldest tracked command for the sensor and property, if there is one. */
    method MatchingCommand(sensor: int, property: string) returns (matched: Option<PendingCommand>)
      requires Valid()
      ensures matched.None? ==> forall id :: id in commands ==> !ForReading(commands[id], sensor, property)
      ensures matched.Some? ==>
                && matched.value.id in commands && commands[matched.value.id] == matched.value
                && ForReading(matched.value, sensor, property)
                && forall id ::
                     id in commands && ForReading(commands[id], sensor, property) ==> Older(matched.value, commands[id])
    {
      matched := None;
      var left := commands.Keys;
      while left != {}
        invariant left <= commands.Keys
        invariant matched.None? ==>
                    forall id :: id in commands && id !in left ==> !ForReading(commands[id], sensor, property)
        invariant matched.Some? ==>
                    && matched.value.id in commands && commands[matched.value.id] == matched.value
                    && ForReading(matched.value, sensor, property)
                    && forall id :: id in commands && id !in left && ForReading(commands[id], sensor, property) ==>
                                      Older(matched.value, commands[id])
      {
        EmptyOrHasMember(left);
        var id :| id in left;
        left := left - {id};
        var command := commands[id];
        if command.sensor == sensor && command.property == property {
          if matched.None? || command.sentAt < matched.value.sentAt
             || (command.sentAt == matched.value.sentAt && command.id < matched.value.id) {
            matched := Some(command);
          }
        }
      }
    }

    /** Forgets the command and tells every channel waiting on it, and no other, its final status. */
    method Settle(id: int, status: CommandStatus)
      requires Valid()
      modifies this, if id in outcomes then (set i | 0 <= i < |outcomes[id]| :: outcomes[id][i]) else {}
      ensures Valid()
      ensures Contents() == Settled(old(Contents()), id)
      ensures commands == old(commands) - {id} && outcomes == old(outcomes) - {id}
      ensures id in old(outcomes) ==>
                forall i :: 0 <= i < |old(outcomes)[id]| ==> old(outcomes)[id][i].buffer == [status]
      ensures cancels == old(cancels) - {id}
    {
      cancels := cancels - {id};
      commands := commands - {id};
      if id in outcomes {
        var waiting := outcomes[id];
        for i := 0 to |waiting|
          invariant outcomes == old(outcomes) && commands == old(commands) - {id} && cancels == old(cancels) - {id}
          invariant forall j :: 0 <= j < i ==> waiting[j].buffer == [status]
          invariant forall j :: i <= j < |waiting| ==> waiting[j].buffer == []
          invariant forall other, j :: other in outcomes && other != id && 0 <= j < |outcomes[other]| ==>
                                         outcomes[other][j].buffer == []
        {
          waiting[i].Send(status);
        }
      }
      outcomes := outcomes - {id};
    }
  }
}
