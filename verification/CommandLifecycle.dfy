/**
 What happens to a command from its recording to its final status, each
 operation run to its end: the history's guarded update first, then the tracker.
 */
module CommandLifecycles {
  import opened Wrappers
  import opened CommandTracking

  /** A reading as it comes in, and the run whose command it turns out to acknowledge. */
  datatype Incoming = Incoming(property: string, value: string, cause: Option<int>)

  ghost predicate Usable(reading: Incoming) {
    reading.property != "" && reading.value != ""
  }

  /** Each reading's command, if it acknowledged one. */
  type Matches = seq<Option<int>>

  ghost function TakenIds(taken: Matches): set<int> {
    set i | 0 <= i < |taken| && taken[i].Some? :: taken[i].value
  }

  /** Each usable reading in turn takes the oldest command still tracked for its property, and is its run's doing. */
  ghost predicate Acknowledges(tracked: map<int, PendingCommand>, sensor: int, batch: seq<Incoming>,
                               batch': seq<Incoming>, taken: Matches) {
    && |batch| == |batch'| == |taken|
    && (forall i, j :: 0 <= i < j < |taken| && taken[i].Some? ==> taken[i] != taken[j])
    && (forall i :: 0 <= i < |taken| ==>
          if taken[i].Some? then Takes(tracked, sensor, batch[i], batch'[i], taken, i)
          else TakesNone(tracked, sensor, batch[i], batch'[i], taken, i))
  }

  ghost predicate Takes(tracked: map<int, PendingCommand>, sensor: int, reading: Incoming, reading': Incoming,
                        taken: Matches, i: nat)
    requires i < |taken| && taken[i].Some?
  {
    var id := taken[i].value;
    && Usable(reading) && id in tracked && ForReading(tracked[id], sensor, reading.property)
    && reading' == reading.(cause := tracked[id].run)
    && forall other ::
         other in tracked && ForReading(tracked[other], sensor, reading.property) && other !in TakenIds(taken[..i]) ==>
                         Older(tracked[id], tracked[other])
  }

  ghost predicate TakesNone(tracked: map<int, PendingCommand>, sensor: int, reading: Incoming, reading': Incoming,
                            taken: Matches, i: nat)
    requires i < |taken|
  {
    && reading' == reading
    && (Usable(reading) ==>
          forall id ::
            id in tracked && ForReading(tracked[id], sensor, reading.property) ==> id in TakenIds(taken[..i]))
  }

  ghost predicate AllAcknowledged(before: map<int, CommandStatus>, after: map<int, CommandStatus>, taken: Matches) {
    && after.Keys == before.Keys
    && forall id :: id in before ==> after[id] == if id in TakenIds(taken) then Acknowledged else before[id]
  }

  /**
   The commands taken are acknowledged with the value of the reading that took them, at the moment
   given, and no others change.
   */
  ghost predicate OnlyAcknowledged(rows: map<int, CommandRow>, rows': map<int, CommandRow>, batch: seq<Incoming>,
                                   taken: Matches, at: Instant) {
    && rows'.Keys == rows.Keys && |taken| == |batch|
    && (forall id :: id in rows && id !in TakenIds(taken) ==> rows'[id] == rows[id])
    && (forall i :: 0 <= i < |taken| && taken[i].Some? ==>
          && taken[i].value in rows
          && rows'[taken[i].value] ==
               CommandRow(rows[taken[i].value].command, Acknowledged, Some((batch[i].value, at))))
  }

  lemma NoneAcknowledged(rows: map<int, CommandRow>, reading: Incoming, at: Instant)
    ensures OnlyAcknowledged(rows, rows, [], [], at) && OnlyAcknowledged(rows, rows, [reading], [None], at)
  {
  }

  lemma OneAcknowledged(rows: map<int, CommandRow>, rows': map<int, CommandRow>, reading: Incoming, id: int,
                        at: Instant)
    requires rows'.Keys == rows.Keys && id in rows
    requires forall other :: other in rows && other != id ==> rows'[other] == rows[other]
    requires rows'[id] == CommandRow(rows[id].command, Acknowledged, Some((reading.value, at)))
    ensures OnlyAcknowledged(rows, rows', [reading], [Some(id)], at)
  {
    OneTakenIds();
  }

  lemma RowsFollow(rows: map<int, CommandRow>, rows': map<int, CommandRow>, rows'': map<int, CommandRow>,
                   batch: seq<Incoming>, reading: Incoming, taken: Matches, id: Option<int>, at: Instant)
    requires OnlyAcknowledged(rows, rows', batch, taken, at) && OnlyAcknowledged(rows', rows'', [reading], [id], at)
    requires id.Some? ==> id.value !in TakenIds(taken)
    ensures OnlyAcknowledged(rows, rows'', batch + [reading], taken + [id], at)
  {
    var (more, all) := (taken + [id], batch + [reading]);
    assert forall other :: other in rows && other !in TakenIds(taken) ==> rows'[other] == rows[other];
    assert forall other :: other in rows' && other !in TakenIds([id]) ==> rows''[other] == rows'[other];
    if id.Some? {
      assert [id][0] == id && [reading][0] == reading;
      assert id.value !in TakenIds(taken);
      assert id.value in rows.Keys;
      assert rows'[id.value] == rows[id.value];
      assert rows''[id.value] == CommandRow(rows[id.value].command, Acknowledged, Some((reading.value, at)));
    }
    TakenMore(taken, id);
    OneTakenIds();
    forall i | 0 <= i < |more| && more[i].Some?
      ensures more[i].value in rows
              && rows''[more[i].value] ==
                   CommandRow(rows[more[i].value].command, Acknowledged, Some((all[i].value, at)))
    {
      if i < |taken| {
        assert more[i] == taken[i] && taken[i].value in TakenIds(taken) && all[i] == batch[i];
        assert taken[i].value in rows.Keys && taken[i].value !in TakenIds([id]);
        assert rows''[taken[i].value] == rows'[taken[i].value];
      } else {
        assert more[i] == id && all[i] == reading;
      }
    }
    hide TakenIds;
  }

  lemma AcknowledgesMore(tracked: map<int, PendingCommand>, sensor: int, batch: seq<Incoming>, batch': seq<Incoming>,
                         taken: Matches,
                         reading: Incoming, reading': Incoming, id: Option<int>)
    requires Acknowledges(tracked, sensor, batch, batch', taken)
    requires id.Some? ==> id.value !in TakenIds(taken)
    requires if id.Some? then Takes(tracked, sensor, reading, reading', taken + [id], |taken|)
             else TakesNone(tracked, sensor, reading, reading', taken + [id], |taken|)
    ensures Acknowledges(tracked, sensor, batch + [reading], batch' + [reading'], taken + [id])
  {
    var more := taken + [id];
    assert forall i :: 0 <= i < |taken| && taken[i].Some? ==> taken[i].value in TakenIds(taken);
    forall i | 0 <= i < |taken|
      ensures if more[i].Some? then Takes(tracked, sensor, (batch + [reading])[i], (batch' + [reading'])[i], more, i)
              else TakesNone(tracked, sensor, (batch + [reading])[i], (batch' + [reading'])[i], more, i)
    {
      assert more[..i] == taken[..i];
    }
  }

  ghost function SentIds(statuses: map<int, CommandStatus>): set<int> {
    set id | id in statuses && statuses[id].Sent?
  }

  lemma MarkedIsSentNoMore(statuses: map<int, CommandStatus>, id: int, status: CommandStatus)
    requires !status.Sent?
    ensures SentIds(MarkRow(statuses, id, status).0) == SentIds(statuses) - {id}
  {
  }

  /** The pending commands whose time is up time out, but for those not looked at yet. */
  ghost function WithoutExpired(statuses: map<int, CommandStatus>, left: set<int>,
                                expired: int -> bool): map<int, CommandStatus> {
    map id | id in statuses :: if statuses[id].Sent? && expired(id) && id !in left then TimedOut else statuses[id]
  }

  lemma NoneExpiredYet(statuses: map<int, CommandStatus>, left: set<int>, expired: int -> bool)
    requires left == SentIds(statuses)
    ensures WithoutExpired(statuses, left, expired) == statuses && SentIds(statuses) - left == {}
  {
  }

  lemma OneExpired(before: map<int, CommandStatus>, now: map<int, CommandStatus>, left: set<int>, id: int,
                   expired: int -> bool)
    requires now == WithoutExpired(before, left, expired) && id in left && left <= SentIds(now)
    ensures id in now
    ensures var next := if expired(id) then now[id := TimedOut] else now;
            && next == WithoutExpired(before, left - {id}, expired) && left - {id} <= SentIds(next)
            && SentIds(next) == SentIds(now) - (if expired(id) then {id} else {})
  {
  }

  class CommandLifecycle {
    const history: CommandHistory
    const tracker: CommandTracker

    /** Every tracked command is still sent, and every command still sent is tracked. */
    ghost predicate Valid()
      reads this, history, tracker, tracker.Channels()
    {
      tracker.Valid() && tracker.commands.Keys == SentIds(history.Statuses())
    }

    constructor (history: CommandHistory)
      ensures this.history == history && fresh(tracker) && tracker.Valid() && tracker.commands == map[]
    {
      this.history := history;
      tracker := new CommandTracker();
    }

    lemma NothingToldYet()
      requires Valid()
      ensures Told(tracker.outcomes, history.Statuses()) && AllApart(tracker.outcomes)
    {
    }

    /** At startup each pending command is tracked in turn, and times out at once if its time is up. */
    method RecoverPending(expired: int -> bool)
      requires tracker.Valid() && tracker.commands == map[]
      requires forall id :: id in history.rows ==> history.rows[id].command.id == id
      modifies history, tracker
      ensures Valid()
      ensures history.Statuses() == WithoutExpired(old(history.Statuses()), {}, expired)
      ensures forall id ::
                id in tracker.commands ==> id in history.rows && tracker.commands[id] == history.rows[id].command
    {
      hide RegistryOk, WithoutExpired, SentIds;
      var left := PendingIds();
      NoneExpiredYet(history.Statuses(), left, expired);
      while left != {}
        invariant tracker.Valid() && left <= SentIds(history.Statuses())
        invariant tracker.commands.Keys == SentIds(history.Statuses()) - left
        invariant history.Statuses() == WithoutExpired(old(history.Statuses()), left, expired)
        invariant forall id :: id in history.rows ==> history.rows[id].command.id == id
        invariant forall id ::
                    id in tracker.commands ==> id in history.rows && tracker.commands[id] == history.rows[id].command
      {
        EmptyOrHasMember(left);
        var id :| id in left;
        OneExpired(old(history.Statuses()), history.Statuses(), left, id, expired);
        var outcome := TrackPending(id, expired(id));
        left := left - {id};
      }
    }

    method PendingIds() returns (ids: set<int>)
      ensures ids == SentIds(history.Statuses())
    {
      ids := set id | id in history.rows && history.rows[id].status.Sent?;
    }

    method TrackPending(id: int, expired: bool) returns (outcome: OutcomeChannel)
      requires tracker.Valid() && id in SentIds(history.Statuses()) && id !in tracker.commands
      requires history.rows[id].command.id == id
      modifies history, tracker
      ensures tracker.Valid()
      ensures forall other :: other in history.rows <==> other in old(history.rows)
      ensures forall other :: other in history.rows ==> history.rows[other].command == old(history.rows)[other].command
      ensures history.Statuses() == if expired then old(history.Statuses())[id := TimedOut] else old(history.Statuses())
      ensures tracker.commands == if expired then old(tracker.commands)
              else old(tracker.commands)[id := history.rows[id].command]
      ensures fresh(outcome) && outcome.buffer == if expired then [TimedOut] else []
      ensures tracker.outcomes == if expired then old(tracker.outcomes) - {id}
              else old(tracker.outcomes)[id := [outcome]]
    {
      hide RegistryOk;
      outcome := tracker.Track(history.rows[id].command, expired);
      if expired {
        var updated := history.MarkTimedOut(id);
        ghost var waiting := tracker.outcomes[id];
        tracker.Settle(id, TimedOut);
        assert waiting[0].buffer == [TimedOut];
      }
    }

    /** Tells whoever waits on the command the status it now has. */
    method TellWaiting(id: int, status: CommandStatus)
      requires tracker.Valid() && id in tracker.commands && status != Sent
      requires tracker.commands.Keys - {id} == SentIds(history.Statuses())
      requires id in history.Statuses() && history.Statuses()[id] == status
      modifies tracker, tracker.Channels()
      ensures Valid() && tracker.Channels() <= old(tracker.Channels())
      ensures tracker.Contents() == Settled(old(tracker.Contents()), id)
      ensures tracker.commands == old(tracker.commands) - {id} && tracker.outcomes == old(tracker.outcomes) - {id}
      ensures Told(old(tracker.outcomes), history.Statuses())
    {
      ghost var outcomes: map<int, seq<OutcomeChannel>> := tracker.outcomes;
      tracker.Settle(id, status);
      forall other, i | other in outcomes && 0 <= i < |outcomes[other]| && other != id
        ensures outcomes[other][i].buffer == []
      {
        assert other in tracker.outcomes && tracker.outcomes[other][i] in tracker.Channels();
      }
      forall i | 0 <= i < |outcomes[id]| ensures outcomes[id][i].buffer == [status] {}
      forall other | other in outcomes && other != id ensures other in SentIds(history.Statuses()) {}
    }

    /** A timer that fires for a command no longer tracked does nothing. */
    method HandleTimeout(id: int)
      requires Valid()
      modifies history, tracker, tracker.Channels()
      ensures Valid()
      ensures history.Statuses() == MarkRow(old(history.Statuses()), id, TimedOut).0
      ensures tracker.Contents() == Settled(old(tracker.Contents()), id)
      ensures Told(old(tracker.outcomes), history.Statuses())
    {
      MarkedIsSentNoMore(history.Statuses(), id, TimedOut);
      NothingToldYet();
      hide RegistryOk, SentIds, Told;
      if id in tracker.commands {
        var updated := history.MarkTimedOut(id);
        if updated {
          TellWaiting(id, TimedOut);
        }
      }
    }

    /** A command that could not be published fails, unless something else has decided it. */
    method MarkFailed(id: int)
      requires Valid()
      modifies history, tracker, tracker.Channels()
      ensures Valid()
      ensures history.Statuses() == MarkRow(old(history.Statuses()), id, Failed).0
      ensures tracker.Contents() == Settled(old(tracker.Contents()), id)
      ensures Told(old(tracker.outcomes), history.Statuses())
    {
      MarkedIsSentNoMore(history.Statuses(), id, Failed);
      NothingToldYet();
      hide RegistryOk, SentIds, Told;
      var updated := history.MarkFailed(id);
      if updated {
        TellWaiting(id, Failed);
      }
    }

    /** Nothing but the command matched changes, and it is acknowledged for good. */
    method AcknowledgeOne(sensor: int, reading: Incoming, at: Instant) returns (reading': Incoming, taken: Option<int>)
      requires Valid()
      modifies history, tracker, tracker.Channels()
      ensures Valid() && tracker.Channels() <= old(tracker.Channels())
      ensures taken.Some? ==>
                && taken.value in old(tracker.commands) && taken.value in old(history.Statuses())
                && history.Statuses() == old(history.Statuses())[taken.value := Acknowledged]
                && tracker.commands == old(tracker.commands) - {taken.value}
                && Takes(old(tracker.commands), sensor, reading, reading', [taken], 0)
      ensures taken.None? ==>
                && history.Statuses() == old(history.Statuses()) && tracker.commands == old(tracker.commands)
                && TakesNone(old(tracker.commands), sensor, reading, reading', [taken], 0)
      ensures tracker.outcomes == old(tracker.outcomes) - (if taken.Some? then {taken.value} else {})
      ensures Told(old(tracker.outcomes), history.Statuses())
      ensures OnlyAcknowledged(old(history.rows), history.rows, [reading], [taken], at)
    {
      NothingToldYet();
      ghost var rows := history.rows;
      NoneAcknowledged(rows, reading, at);
      hide RegistryOk, OnlyAcknowledged, Told;
      reading', taken := reading, None;
      if reading.property == "" || reading.value == "" {
        return;
      }
      var matched := tracker.MatchingCommand(sensor, reading.property);
      if matched.None? {
        return;
      }
      var id := matched.value.id;
      MarkedIsSentNoMore(history.Statuses(), id, Acknowledged);
      assert id in SentIds(history.Statuses());
      var updated := history.MarkAcknowledged(id, reading.value, at);
      if !updated {
        return;
      }
      reading' := reading.(cause := matched.value.run);
      taken := Some(id);
      OneAcknowledged(rows, history.rows, reading, id, at);
      TellWaiting(id, Acknowledged);
    }

    /** One more reading, of those of the batch so far: what they told the channels stands. */
    method AcknowledgeNext(sensor: int, reading: Incoming, at: Instant, ghost all: map<int, seq<OutcomeChannel>>,
                           ghost told: set<int>)
      returns (reading': Incoming, taken: Option<int>)
      requires Valid() && tracker.outcomes == all - told && AllApart(all)
      requires Told(all, history.Statuses())
      modifies history, tracker, tracker.Channels()
      ensures Valid() && tracker.Channels() <= old(tracker.Channels())
      ensures taken.Some? ==>
                && taken.value in old(tracker.commands) && taken.value in old(history.Statuses())
                && history.Statuses() == old(history.Statuses())[taken.value := Acknowledged]
                && tracker.commands == old(tracker.commands) - {taken.value}
                && Takes(old(tracker.commands), sensor, reading, reading', [taken], 0)
      ensures taken.None? ==>
                && history.Statuses() == old(history.Statuses()) && tracker.commands == old(tracker.commands)
                && TakesNone(old(tracker.commands), sensor, reading, reading', [taken], 0)
      ensures tracker.outcomes == old(tracker.outcomes) - (if taken.Some? then {taken.value} else {})
      ensures Told(all, history.Statuses())
      ensures OnlyAcknowledged(old(history.rows), history.rows, [reading], [taken], at)
    {
      hide RegistryOk, OnlyAcknowledged, TakenIds, Takes, TakesNone, SentIds;
      ghost var before := tracker.outcomes;
      TrackedHaveChannels();
      reading', taken := AcknowledgeOne(sensor, reading, at);
      forall id, i | id in all && 0 <= i < |all[id]|
        ensures HoldsStatus(all[id][i], history.Statuses(), id)
      {
        assert old(HoldsStatus(all[id][i], history.Statuses(), id));
        if id in before {
          assert before[id] == all[id];
        } else {
          ToldAreApart(all, told, id, i);
        }
      }
    }

    lemma TrackedHaveChannels()
      requires Valid()
      ensures tracker.commands.Keys == tracker.outcomes.Keys
    {
    }

    /** The next reading of the batch, after what those before it have done. */
    method ConsumeNext(sensor: int, batch: seq<Incoming>, i: nat, at: Instant, ghost batch': seq<Incoming>,
                       ghost taken: Matches, ghost commands: map<int, PendingCommand>,
                       ghost outcomes: map<int, seq<OutcomeChannel>>, ghost rows: map<int, CommandRow>)
      returns (reading': Incoming, id: Option<int>)
      requires Valid() && i < |batch| && AllApart(outcomes) && Told(outcomes, history.Statuses())
      requires Consumed(commands, tracker.commands, outcomes, tracker.outcomes, rows, history.rows,
                        sensor, batch[..i], batch', taken, at)
      modifies history, tracker, tracker.Channels()
      ensures Valid() && tracker.Channels() <= old(tracker.Channels()) && Told(outcomes, history.Statuses())
      ensures Consumed(commands, tracker.commands, outcomes, tracker.outcomes, rows, history.rows,
                       sensor, batch[..i + 1], batch' + [reading'], taken + [id], at)
    {
      hide RegistryOk, SentIds, CommandTracker.Valid, Consumed, Takes, TakesNone, TakenIds, OnlyAcknowledged,
           Told, AllApart,
           Acknowledges, AllAcknowledged, StatusesOf;
      ghost var (commandsWas, outcomesWas, rowsWas) := (tracker.commands, tracker.outcomes, history.rows);
      OutcomesLeft(commands, commandsWas, outcomes, outcomesWas, rows, rowsWas, sensor, batch[..i], batch', taken, at);
      reading', id := AcknowledgeNext(sensor, batch[i], at, outcomes, TakenIds(taken));
      ConsumedMore(commands, commandsWas, tracker.commands, outcomes, outcomesWas, tracker.outcomes,
                   rows, rowsWas, history.rows, sensor, batch[..i], batch', taken, batch[i], reading', id, at);
      assert batch[..i + 1] == batch[..i] + [batch[i]];
    }

    /** Each reading of a batch acknowledges at most one command, the oldest still tracked for it. */
    method Consume(sensor: int, batch: seq<Incoming>, at: Instant) returns (batch': seq<Incoming>, ghost taken: Matches)
      requires Valid()
      modifies history, tracker, tracker.Channels()
      ensures Valid()
      ensures Acknowledges(old(tracker.commands), sensor, batch, batch', taken)
      ensures AllAcknowledged(old(history.Statuses()), history.Statuses(), taken)
      ensures tracker.commands == old(tracker.commands) - TakenIds(taken)
      ensures Told(old(tracker.outcomes), history.Statuses())
      ensures OnlyAcknowledged(old(history.rows), history.rows, batch, taken, at)
    {
      batch', taken := [], [];
      ghost var (commands, outcomes, rows) := (tracker.commands, tracker.outcomes, history.rows);
      NothingToldYet();
      NoneConsumed(commands, outcomes, rows, sensor, at);
      hide RegistryOk, SentIds, CommandTracker.Valid, Consumed, TakenIds, OnlyAcknowledged, Told, AllApart,
           Acknowledges, AllAcknowledged, StatusesOf;
      assert batch[..0] == [];
      for i := 0 to |batch|
        invariant Valid() && tracker.Channels() <= old(tracker.Channels()) && Told(outcomes, history.Statuses())
        invariant Consumed(commands, tracker.commands, outcomes, tracker.outcomes, rows, history.rows,
                           sensor, batch[..i], batch', taken, at)
      {
        var reading', id := ConsumeNext(sensor, batch, i, at, batch', taken, commands, outcomes, rows);
        batch', taken := batch' + [reading'], taken + [id];
      }
      assert batch[..|batch|] == batch;
      ConsumedAll(commands, tracker.commands, outcomes, tracker.outcomes, rows, history.rows,
                  sensor, batch, batch', taken, at);
    }
  }

  /** No two commands share a channel. */
  ghost predicate AllApart(all: map<int, seq<OutcomeChannel>>) {
    forall a, b, i :: a in all && b in all && a != b && 0 <= i < |all[a]| ==> all[a][i] !in all[b]
  }

  lemma ToldAreApart(all: map<int, seq<OutcomeChannel>>, told: set<int>, id: int, i: nat)
    requires AllApart(all) && id in all && id in told && i < |all[id]|
    ensures all[id][i] !in ChannelsOf(all - told)
  {
  }

  /** What the readings of a batch so far have done to the tracker and the history. */
  ghost predicate Consumed(commands: map<int, PendingCommand>, commands': map<int, PendingCommand>,
                           outcomes: map<int, seq<OutcomeChannel>>, outcomes': map<int, seq<OutcomeChannel>>,
                           rows: map<int, CommandRow>, rows': map<int, CommandRow>,
                           sensor: int, batch: seq<Incoming>, batch': seq<Incoming>, taken: Matches, at: Instant) {
    && commands' == commands - TakenIds(taken) && outcomes' == outcomes - TakenIds(taken)
    && Acknowledges(commands, sensor, batch, batch', taken)
    && AllAcknowledged(StatusesOf(rows), StatusesOf(rows'), taken)
    && OnlyAcknowledged(rows, rows', batch, taken, at)
  }

  lemma NoneConsumed(commands: map<int, PendingCommand>, outcomes: map<int, seq<OutcomeChannel>>,
                     rows: map<int, CommandRow>, sensor: int, at: Instant)
    ensures Consumed(commands, commands, outcomes, outcomes, rows, rows, sensor, [], [], [], at)
  {
  }

  lemma OutcomesLeft(commands: map<int, PendingCommand>, commands': map<int, PendingCommand>,
                     outcomes: map<int, seq<OutcomeChannel>>, outcomes': map<int, seq<OutcomeChannel>>,
                     rows: map<int, CommandRow>, rows': map<int, CommandRow>,
                     sensor: int, batch: seq<Incoming>, batch': seq<Incoming>, taken: Matches, at: Instant)
    requires Consumed(commands, commands', outcomes, outcomes', rows, rows', sensor, batch, batch', taken, at)
    ensures outcomes' == outcomes - TakenIds(taken)
  {
  }

  lemma ConsumedAll(commands: map<int, PendingCommand>, commands': map<int, PendingCommand>,
                    outcomes: map<int, seq<OutcomeChannel>>, outcomes': map<int, seq<OutcomeChannel>>,
                    rows: map<int, CommandRow>, rows': map<int, CommandRow>,
                    sensor: int, batch: seq<Incoming>, batch': seq<Incoming>, taken: Matches, at: Instant)
    requires Consumed(commands, commands', outcomes, outcomes', rows, rows', sensor, batch, batch', taken, at)
    ensures commands' == commands - TakenIds(taken)
    ensures Acknowledges(commands, sensor, batch, batch', taken)
    ensures AllAcknowledged(StatusesOf(rows), StatusesOf(rows'), taken)
    ensures OnlyAcknowledged(rows, rows', batch, taken, at)
  {
  }

  lemma ConsumedMore(commands: map<int, PendingCommand>, commands': map<int, PendingCommand>,
                     commands'': map<int, PendingCommand>,
                     outcomes: map<int, seq<OutcomeChannel>>, outcomes': map<int, seq<OutcomeChannel>>,
                     outcomes'': map<int, seq<OutcomeChannel>>,
                     rows: map<int, CommandRow>, rows': map<int, CommandRow>, rows'': map<int, CommandRow>,
                     sensor: int, batch: seq<Incoming>, batch': seq<Incoming>, taken: Matches,
                     reading: Incoming, reading': Incoming, id: Option<int>, at: Instant)
    requires Consumed(commands, commands', outcomes, outcomes', rows, rows', sensor, batch, batch', taken, at)
    requires id.Some? ==>
               && id.value in StatusesOf(rows')
               && StatusesOf(rows'') == StatusesOf(rows')[id.value := Acknowledged]
               && commands'' == commands' - {id.value}
               && Takes(commands', sensor, reading, reading', [id], 0)
    requires id.None? ==>
               && StatusesOf(rows'') == StatusesOf(rows') && commands'' == commands'
               && TakesNone(commands', sensor, reading, reading', [id], 0)
    requires outcomes'' == outcomes' - (if id.Some? then {id.value} else {})
    requires OnlyAcknowledged(rows', rows'', [reading], [id], at)
    ensures Consumed(commands, commands'', outcomes, outcomes'', rows, rows'', sensor, batch + [reading],
                     batch' + [reading'], taken + [id], at)
  {
    hide Acknowledges, AllAcknowledged, OnlyAcknowledged, Takes, TakesNone, StatusesOf;
    OneTaken(commands, commands', sensor, taken, reading, reading', id);
    StatusesFollow(StatusesOf(rows), StatusesOf(rows'), taken, id);
    RowsFollow(rows, rows', rows'', batch, reading, taken, id, at);
    AcknowledgesMore(commands, sensor, batch, batch', taken, reading, reading', id);
    TakenMore(taken, id);
    hide TakenIds;
  }

  lemma OneTakenIds()
    ensures forall id: Option<int> :: TakenIds([id]) == if id.Some? then {id.value} else {}
  {
    forall id: Option<int> ensures TakenIds([id]) == if id.Some? then {id.value} else {} {
      TakenMore([], id);
      var none: Matches := [];
      assert none + [id] == [id] && TakenIds(none) == {};
    }
  }

  lemma TakenMore(taken: Matches, id: Option<int>)
    ensures TakenIds(taken + [id]) == TakenIds(taken) + if id.Some? then {id.value} else {}
  {
    var more := taken + [id];
    assert more[|taken|] == id;
    forall other | other in TakenIds(taken) ensures other in TakenIds(more) {
      var i :| 0 <= i < |taken| && taken[i].Some? && taken[i].value == other;
      assert more[i] == taken[i];
    }
  }

  /** What a reading takes of the commands left is what it should take of all that were tracked. */
  lemma OneTaken(tracked: map<int, PendingCommand>, left: map<int, PendingCommand>, sensor: int, taken: Matches,
                 reading: Incoming, reading': Incoming, id: Option<int>)
    requires left == tracked - TakenIds(taken)
    requires if id.Some? then Takes(left, sensor, reading, reading', [id], 0)
             else TakesNone(left, sensor, reading, reading', [id], 0)
    ensures if id.Some? then Takes(tracked, sensor, reading, reading', taken + [id], |taken|)
            else TakesNone(tracked, sensor, reading, reading', taken + [id], |taken|)
    ensures id.Some? ==> id.value !in TakenIds(taken)
    ensures (if id.Some? then left - {id.value} else left) == tracked - TakenIds(taken + [id])
  {
    TakenMore(taken, id);
    assert (taken + [id])[..|taken|] == taken;
    assert TakenIds([id][..0]) == {};
    hide TakenIds;
  }

  lemma StatusesFollow(before: map<int, CommandStatus>, now: map<int, CommandStatus>, taken: Matches, id: Option<int>)
    requires AllAcknowledged(before, now, taken) && (id.Some? ==> id.value in now)
    ensures AllAcknowledged(before, if id.Some? then now[id.value := Acknowledged] else now, taken + [id])
  {
    TakenMore(taken, id);
    hide TakenIds;
  }
}
