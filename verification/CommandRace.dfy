/**
 Acknowledgement, timeout and failure racing for every command, as a state
 machine whose steps are one status update or one visit to the tracker's lock.
 */
module CommandRace {
  import opened Wrappers
  import opened CommandTracking

  /** A goroutine with a command in hand, between two steps. */
  datatype Pc =
    | Tracking(command: PendingCommand)          // recorded as sent, not tracked yet
    | Publishing(command: PendingCommand)        // tracked by its sender, which may still give it up
    | Marking(id: int, status: CommandStatus)    // about to try for a final status
    | Settling(id: int, status: CommandStatus)   // won it; the tracker has not been told

  /** Channels are numbered; sends logs all that was ever sent to each. */
  datatype State = State(
    rows: map<int, CommandStatus>,
    registry: Registry<nat>,
    sends: map<nat, seq<CommandStatus>>,
    owner: map<nat, int>,
    threads: map<nat, Pc>)

  datatype Action =
    | Record(command: PendingCommand, tid: nat)  // the command is written to the history as sent
    | Track(tid: nat, channel: nat)
    | Await(id: int, channel: nat)
    | Published(tid: nat)
    | GiveUp(tid: nat)                           // publishing failed
    | Acknowledge(id: int, tid: nat)             // a reading matched the tracked command
    | Expire(id: int, tid: nat)                  // its timer fired
    | Mark(tid: nat)
    | Settle(tid: nat)
    | Restart(commands: map<nat, PendingCommand>)

  predicate Terminal(status: CommandStatus) {
    !status.Sent?
  }

  function SendAll(sends: map<nat, seq<CommandStatus>>, channels: seq<nat>,
                   status: CommandStatus): map<nat, seq<CommandStatus>> {
    map channel | channel in sends :: if channel in channels then sends[channel] + [status] else sends[channel]
  }

  ghost predicate Enabled(s: State, a: Action) {
    match a
    case Record(command, tid) => command.id !in s.rows && tid !in s.threads
    case Track(tid, channel) => tid in s.threads && s.threads[tid].Tracking? && channel !in s.sends
    case Await(_, channel) => channel !in s.sends
    case Published(tid) => tid in s.threads && s.threads[tid].Publishing?
    case GiveUp(tid) => tid in s.threads && s.threads[tid].Publishing?
    case Acknowledge(id, tid) => id in s.registry.commands && tid !in s.threads
    case Expire(_, tid) => tid !in s.threads
    case Mark(tid) => tid in s.threads && s.threads[tid].Marking?
    case Settle(tid) => tid in s.threads && s.threads[tid].Settling?
    case Restart(commands) =>
      // Startup lists the pending commands and tracks each once.
      && (forall tid :: tid in commands ==> commands[tid].id in s.rows && s.rows[commands[tid].id].Sent?)
      && (forall id :: id in s.rows && s.rows[id].Sent? ==> exists tid :: tid in commands && commands[tid].id == id)
      && (forall i, j :: i in commands && j in commands && commands[i].id == commands[j].id ==> i == j)
  }

  function Apply(s: State, a: Action): State
    requires Enabled(s, a)
  {
    match a
    case Record(command, tid) => s.(rows := s.rows[command.id := Sent], threads := s.threads[tid := Tracking(command)])
    case Track(tid, channel) =>
      var command := s.threads[tid].command;
      s.(registry := Tracked(s.registry, command, channel),
         sends := s.sends[channel := []], owner := s.owner[channel := command.id],
         threads := s.threads[tid := Publishing(command)])
    case Await(id, channel) =>
      if id in s.registry.commands && id in s.registry.outcomes then
        s.(registry := Awaited(s.registry, id, channel), sends := s.sends[channel := []],
           owner := s.owner[channel := id])
      else s
    case Published(tid) => s.(threads := s.threads - {tid})
    case GiveUp(tid) => s.(threads := s.threads[tid := Marking(s.threads[tid].command.id, Failed)])
    case Acknowledge(id, tid) => s.(threads := s.threads[tid := Marking(id, Acknowledged)])
    case Expire(id, tid) =>
      if id in s.registry.commands then s.(threads := s.threads[tid := Marking(id, TimedOut)]) else s
    case Mark(tid) =>
      var Marking(id, status) := s.threads[tid];
      var (rows, updated) := MarkRow(s.rows, id, status);
      s.(rows := rows, threads := if updated then s.threads[tid := Settling(id, status)] else s.threads - {tid})
    case Settle(tid) =>
      var Settling(id, status) := s.threads[tid];
      var channels := if id in s.registry.outcomes then s.registry.outcomes[id] else [];
      s.(registry := Settled(s.registry, id), sends := SendAll(s.sends, channels, status), threads := s.threads - {tid})
    case Restart(commands) =>
      s.(registry := Registry(map[], map[]), sends := map[], owner := map[],
         threads := map tid | tid in commands :: Tracking(commands[tid]))
  }

  // ---------- The invariant ----------

  ghost predicate Registered(r: Registry<nat>, channel: nat) {
    exists id, i :: id in r.outcomes && 0 <= i < |r.outcomes[id]| && r.outcomes[id][i] == channel
  }

  function IdOf(pc: Pc): int {
    match pc
    case Tracking(command) => command.id
    case Publishing(command) => command.id
    case Marking(id, _) => id
    case Settling(id, _) => id
  }

  ghost predicate ThreadOk(rows: map<int, CommandStatus>, tracked: set<int>, pc: Pc) {
    && IdOf(pc) in rows
    && match pc
       case Tracking(command) => rows[command.id].Sent? && command.id !in tracked
       case Publishing(command) => rows[command.id].Sent? ==> command.id in tracked
       case Marking(id, status) => Terminal(status) && (rows[id].Sent? ==> id in tracked)
       case Settling(id, status) => Terminal(status) && rows[id] == status && id in tracked
  }

  /** Who has the last word on a command: the goroutine about to track it, or the one that won its final status. */
  predicate Exclusive(pc: Pc) {
    pc.Tracking? || pc.Settling?
  }

  /** A channel still registered has been sent nothing. */
  ghost predicate WaitingOk(s: State)
    requires s.owner.Keys == s.sends.Keys
  {
    forall id, i :: id in s.registry.outcomes && 0 <= i < |s.registry.outcomes[id]| ==>
      var channel := s.registry.outcomes[id][i];
      channel in s.sends && s.owner[channel] == id && s.sends[channel] == []
  }

  /** One no longer registered has been sent its command's final status once. */
  ghost predicate DeliveredOk(s: State)
    requires s.owner.Keys == s.sends.Keys
  {
    forall channel :: channel in s.sends && !Registered(s.registry, channel) ==>
      var id := s.owner[channel];
      id in s.rows && Terminal(s.rows[id]) && s.sends[channel] == [s.rows[id]]
  }

  ghost predicate ChannelsOk(s: State) {
    s.owner.Keys == s.sends.Keys && WaitingOk(s) && DeliveredOk(s)
  }

  ghost predicate Settles(threads: map<nat, Pc>, tid: nat, id: int) {
    tid in threads && threads[tid].Settling? && threads[tid].id == id
  }

  ghost predicate Tracks(threads: map<nat, Pc>, tid: nat, id: int) {
    tid in threads && threads[tid].Tracking? && threads[tid].command.id == id
  }

  /** A tracked command is still sent or about to be settled, and one still sent is tracked or about to be. */
  ghost predicate Covered(rows: map<int, CommandStatus>, tracked: set<int>, threads: map<nat, Pc>) {
    && (forall id :: id in tracked ==> id in rows && (Terminal(rows[id]) ==> exists tid :: Settles(threads, tid, id)))
    && (forall id :: id in rows && rows[id].Sent? && id !in tracked ==> exists tid :: Tracks(threads, tid, id))
  }

  ghost predicate ThreadsOk(rows: map<int, CommandStatus>, tracked: set<int>, threads: map<nat, Pc>) {
    && (forall tid :: tid in threads ==> ThreadOk(rows, tracked, threads[tid]))
    && (forall i, j | i in threads && j in threads && Exclusive(threads[i]) && Exclusive(threads[j]) ::
          IdOf(threads[i]) == IdOf(threads[j]) ==> i == j)
  }

  ghost predicate Inv(s: State) {
    && RegistryOk(s.registry)
    && Covered(s.rows, s.registry.commands.Keys, s.threads)
    && ThreadsOk(s.rows, s.registry.commands.Keys, s.threads)
    && ChannelsOk(s)
  }

  /** Once a command has a final status it keeps it. */
  ghost predicate Evolves(a: State, b: State) {
    forall id :: id in a.rows ==> id in b.rows && (Terminal(a.rows[id]) ==> b.rows[id] == a.rows[id])
  }

  // ---------- Goroutines ----------

  /** One goroutine moves on, and what it leaves behind or takes up is accounted for. */
  lemma CoverMoves(rows: map<int, CommandStatus>, tracked: set<int>, threads: map<nat, Pc>,
                   rows': map<int, CommandStatus>, tracked': set<int>, threads': map<nat, Pc>, tid: nat, id: int)
    requires Covered(rows, tracked, threads)
    requires forall t :: t != tid && t in threads ==> t in threads' && threads'[t] == threads[t]
    requires forall other :: other != id ==>
               && (other in rows' <==> other in rows) && (other in rows ==> rows'[other] == rows[other])
               && (other in tracked' <==> other in tracked)
    requires tid in threads ==> IdOf(threads[tid]) == id || !Exclusive(threads[tid])
    requires id in tracked' ==> id in rows' && (Terminal(rows'[id]) ==> exists t :: Settles(threads', t, id))
    requires id in rows' && rows'[id].Sent? && id !in tracked' ==> exists t :: Tracks(threads', t, id)
    ensures Covered(rows', tracked', threads')
  {
    forall other | other in tracked' && Terminal(rows'[other]) ensures exists t :: Settles(threads', t, other) {
      if other != id {
        var t :| Settles(threads, t, other);
        assert Settles(threads', t, other);
      }
    }
    forall other | other in rows' && rows'[other].Sent? && other !in tracked'
      ensures exists t :: Tracks(threads', t, other)
    {
      if other != id {
        var t :| Tracks(threads, t, other);
        assert Tracks(threads', t, other);
      }
    }
  }

  /** A goroutine that neither tracks nor has won anything may come, change what it does, or go. */
  lemma MoveKeeps(rows: map<int, CommandStatus>, tracked: set<int>, threads: map<nat, Pc>, tid: nat, next: Option<Pc>)
    requires Covered(rows, tracked, threads) && ThreadsOk(rows, tracked, threads)
    requires tid in threads ==> !Exclusive(threads[tid])
    requires next.Some? ==> !Exclusive(next.value) && ThreadOk(rows, tracked, next.value)
    ensures var threads' := if next.Some? then threads[tid := next.value] else threads - {tid};
            Covered(rows, tracked, threads') && ThreadsOk(rows, tracked, threads')
  {
    var threads' := if next.Some? then threads[tid := next.value] else threads - {tid};
    forall id | id in tracked && Terminal(rows[id]) ensures exists t :: Settles(threads', t, id) {
      var t :| Settles(threads, t, id);
      assert Settles(threads', t, id);
    }
    forall id | id in rows && rows[id].Sent? && id !in tracked ensures exists t :: Tracks(threads', t, id) {
      var t :| Tracks(threads, t, id);
      assert Tracks(threads', t, id);
    }
  }

  lemma RecordKeeps(rows: map<int, CommandStatus>, tracked: set<int>, threads: map<nat, Pc>, command: PendingCommand,
                    tid: nat)
    requires Covered(rows, tracked, threads) && ThreadsOk(rows, tracked, threads)
    requires command.id !in rows && tid !in threads
    ensures var (rows', threads') := (rows[command.id := Sent], threads[tid := Tracking(command)]);
            Covered(rows', tracked, threads') && ThreadsOk(rows', tracked, threads')
  {
    var (rows', threads') := (rows[command.id := Sent], threads[tid := Tracking(command)]);
    assert command.id !in tracked;
    assert Tracks(threads', tid, command.id);
    CoverMoves(rows, tracked, threads, rows', tracked, threads', tid, command.id);
    forall t | t in threads' ensures ThreadOk(rows', tracked, threads'[t]) {
      assert t != tid ==> ThreadOk(rows, tracked, threads[t]);
    }
  }

  lemma TrackKeeps(rows: map<int, CommandStatus>, tracked: set<int>, threads: map<nat, Pc>, tid: nat)
    requires Covered(rows, tracked, threads) && ThreadsOk(rows, tracked, threads)
    requires tid in threads && threads[tid].Tracking?
    ensures var command := threads[tid].command;
            var (tracked', threads') := (tracked + {command.id}, threads[tid := Publishing(command)]);
            && command.id !in tracked
            && Covered(rows, tracked', threads') && ThreadsOk(rows, tracked', threads')
  {
    var command := threads[tid].command;
    var (tracked', threads') := (tracked + {command.id}, threads[tid := Publishing(command)]);
    assert ThreadOk(rows, tracked, threads[tid]);
    CoverMoves(rows, tracked, threads, rows, tracked', threads', tid, command.id);
    forall t | t in threads' ensures ThreadOk(rows, tracked', threads'[t]) {
      if t != tid {
        assert ThreadOk(rows, tracked, threads[t]);
        assert Exclusive(threads[t]) ==> IdOf(threads[t]) != command.id;
      }
    }
  }

  /** Winning a final status: the row was sent, so the command was tracked and nobody had won it before. */
  lemma MarkKeeps(rows: map<int, CommandStatus>, tracked: set<int>, threads: map<nat, Pc>, tid: nat, id: int,
                  status: CommandStatus)
    requires Covered(rows, tracked, threads) && ThreadsOk(rows, tracked, threads)
    requires tid in threads && threads[tid] == Marking(id, status) && id in rows && rows[id].Sent?
    ensures var (rows', threads') := (rows[id := status], threads[tid := Settling(id, status)]);
            Covered(rows', tracked, threads') && ThreadsOk(rows', tracked, threads')
  {
    var (rows', threads') := (rows[id := status], threads[tid := Settling(id, status)]);
    assert ThreadOk(rows, tracked, threads[tid]);
    assert Settles(threads', tid, id);
    CoverMoves(rows, tracked, threads, rows', tracked, threads', tid, id);
    forall t | t in threads ensures t != tid && Exclusive(threads[t]) ==> IdOf(threads[t]) != id {
      assert ThreadOk(rows, tracked, threads[t]);
    }
    forall t | t in threads' ensures ThreadOk(rows', tracked, threads'[t]) {
      assert t != tid ==> ThreadOk(rows, tracked, threads[t]);
    }
  }

  lemma SettleKeeps(rows: map<int, CommandStatus>, tracked: set<int>, threads: map<nat, Pc>, tid: nat)
    requires Covered(rows, tracked, threads) && ThreadsOk(rows, tracked, threads)
    requires tid in threads && threads[tid].Settling?
    ensures var id := threads[tid].id;
            && id in tracked && id in rows && rows[id] == threads[tid].status && Terminal(rows[id])
            && Covered(rows, tracked - {id}, threads - {tid}) && ThreadsOk(rows, tracked - {id}, threads - {tid})
  {
    var id := threads[tid].id;
    assert ThreadOk(rows, tracked, threads[tid]);
    CoverMoves(rows, tracked, threads, rows, tracked - {id}, threads - {tid}, tid, id);
    forall t | t in threads && t != tid ensures ThreadOk(rows, tracked - {id}, threads[t]) {
      assert ThreadOk(rows, tracked, threads[t]);
      assert Exclusive(threads[t]) ==> IdOf(threads[t]) != id;
    }
  }

  lemma RestartKeeps(rows: map<int, CommandStatus>, commands: map<nat, PendingCommand>)
    requires forall tid :: tid in commands ==> commands[tid].id in rows && rows[commands[tid].id].Sent?
    requires forall id :: id in rows && rows[id].Sent? ==> exists tid :: tid in commands && commands[tid].id == id
    requires forall i, j :: i in commands && j in commands && commands[i].id == commands[j].id ==> i == j
    ensures var threads := map tid | tid in commands :: Tracking(commands[tid]);
            Covered(rows, {}, threads) && ThreadsOk(rows, {}, threads)
  {
    var threads := map tid | tid in commands :: Tracking(commands[tid]);
    forall id | id in rows && rows[id].Sent? ensures exists t :: Tracks(threads, t, id) {
      var t :| t in commands && commands[t].id == id;
      assert Tracks(threads, t, id);
    }
  }

  // ---------- Channels ----------

  lemma FreshChannel(s: State, channel: nat)
    requires ChannelsOk(s) && channel !in s.sends
    ensures forall id :: id in s.registry.outcomes ==> channel !in s.registry.outcomes[id]
  {
  }

  lemma StillRegistered(a: Registry<nat>, b: Registry<nat>, channel: nat)
    requires Registered(a, channel)
    requires forall id :: id in a.outcomes ==> id in b.outcomes && a.outcomes[id] <= b.outcomes[id]
    ensures Registered(b, channel)
  {
    var id, i :| id in a.outcomes && 0 <= i < |a.outcomes[id]| && a.outcomes[id][i] == channel;
    assert b.outcomes[id][i] == channel;
  }

  /** Registering a new channel on a command, tracked before or not. */
  ghost predicate ChannelAdded(s: State, s': State, id: int, channel: nat) {
    && channel !in s.sends && s'.rows == s.rows
    && s'.sends == s.sends[channel := []] && s'.owner == s.owner[channel := id]
    && id in s'.registry.outcomes && s'.registry.outcomes.Keys == s.registry.outcomes.Keys + {id}
    && (forall other ::
          other in s.registry.outcomes && other != id ==> s'.registry.outcomes[other] == s.registry.outcomes[other])
    && s'.registry.outcomes[id] == (if id in s.registry.outcomes then s.registry.outcomes[id] else []) + [channel]
  }

  lemma NewChannelWaits(s: State, s': State, id: int, channel: nat)
    requires s.owner.Keys == s.sends.Keys && WaitingOk(s) && ChannelAdded(s, s', id, channel)
    ensures s'.owner.Keys == s'.sends.Keys && WaitingOk(s')
  {
    forall other, i | other in s'.registry.outcomes && 0 <= i < |s'.registry.outcomes[other]|
      ensures var c := s'.registry.outcomes[other][i]; c in s'.sends && s'.owner[c] == other && s'.sends[c] == []
    {
      var c := s'.registry.outcomes[other][i];
      if other in s.registry.outcomes && i < |s.registry.outcomes[other]| {
        assert c == s.registry.outcomes[other][i];
      }
    }
  }

  lemma NewChannel(s: State, s': State, id: int, channel: nat)
    requires ChannelsOk(s) && ChannelAdded(s, s', id, channel)
    ensures ChannelsOk(s')
  {
    NewChannelWaits(s, s', id, channel);
    assert s'.registry.outcomes[id][|s'.registry.outcomes[id]| - 1] == channel;
    assert Registered(s'.registry, channel);
    forall c | c in s'.sends && !Registered(s'.registry, c)
      ensures s'.owner[c] in s'.rows && Terminal(s'.rows[s'.owner[c]]) && s'.sends[c] == [s'.rows[s'.owner[c]]]
    {
      if Registered(s.registry, c) {
        StillRegistered(s.registry, s'.registry, c);
      }
    }
  }

  /** Channels keep their promise while rows only turn final. */
  lemma RowsTurnFinal(s: State, rows: map<int, CommandStatus>)
    requires ChannelsOk(s) && Evolves(s, s.(rows := rows))
    ensures ChannelsOk(s.(rows := rows))
  {
  }

  /** The channels of other commands are left alone. */
  lemma OthersWait(s: State, id: int)
    requires s.owner.Keys == s.sends.Keys && WaitingOk(s) && RegistryOk(s.registry) && id in s.registry.outcomes
             && id in s.rows
    ensures var s' := s.(registry := Settled(s.registry, id),
                         sends := SendAll(s.sends, s.registry.outcomes[id], s.rows[id]));
            WaitingOk(s')
  {
    var channels := s.registry.outcomes[id];
    SettledOk(s.registry, id);
    hide RegistryOk;
    assert forall other, i :: other in s.registry.outcomes && other != id && 0 <= i < |s.registry.outcomes[other]| ==>
      s.registry.outcomes[other][i] !in channels;
  }

  /** The command's own channels get its final status, once. */
  lemma OwnChannelDelivered(s: State, id: int, c: nat)
    requires ChannelsOk(s) && id in s.registry.outcomes && id in s.rows && Terminal(s.rows[id])
    requires c in s.sends && !Registered(Settled(s.registry, id), c)
    ensures s.owner[c] in s.rows && Terminal(s.rows[s.owner[c]])
    ensures SendAll(s.sends, s.registry.outcomes[id], s.rows[id])[c] == [s.rows[s.owner[c]]]
  {
    var channels := s.registry.outcomes[id];
    if c in channels {
      var i :| 0 <= i < |channels| && channels[i] == c;
      assert s.owner[c] == id && s.sends[c] == [];
    } else {
      RegisteredElsewhere(s.registry, id, c);
    }
  }

  lemma SettledChannels(s: State, id: int)
    requires ChannelsOk(s) && RegistryOk(s.registry) && id in s.registry.outcomes && id in s.rows
             && Terminal(s.rows[id])
    ensures var s' := s.(registry := Settled(s.registry, id),
                         sends := SendAll(s.sends, s.registry.outcomes[id], s.rows[id]));
            ChannelsOk(s')
  {
    var s' := s.(registry := Settled(s.registry, id), sends := SendAll(s.sends, s.registry.outcomes[id], s.rows[id]));
    OthersWait(s, id);
    assert DeliveredOk(s') by {
      hide ChannelsOk, RegistryOk, Settled, SendAll, Registered;
      forall c | c in s.sends && !Registered(Settled(s.registry, id), c)
        ensures s.owner[c] in s.rows && Terminal(s.rows[s.owner[c]])
             && SendAll(s.sends, s.registry.outcomes[id], s.rows[id])[c] == [s.rows[s.owner[c]]]
      {
        OwnChannelDelivered(s, id, c);
      }
    }
  }

  lemma RegisteredElsewhere(r: Registry<nat>, id: int, channel: nat)
    requires id in r.outcomes && channel !in r.outcomes[id]
    ensures Registered(r, channel) ==> Registered(Settled(r, id), channel)
  {
    if Registered(r, channel) {
      var other, i :| other in r.outcomes && 0 <= i < |r.outcomes[other]| && r.outcomes[other][i] == channel;
      assert other in Settled(r, id).outcomes && Settled(r, id).outcomes[other][i] == channel;
    }
  }

  // ---------- Every step keeps the invariant ----------

  lemma TrackStep(s: State, tid: nat, channel: nat)
    requires Inv(s) && Enabled(s, Track(tid, channel))
    ensures Inv(Apply(s, Track(tid, channel)))
  {
    var s' := Apply(s, Track(tid, channel));
    var command := s.threads[tid].command;
    TrackKeeps(s.rows, s.registry.commands.Keys, s.threads, tid);
    FreshChannel(s, channel);
    TrackedOk(s.registry, command, channel);
    assert command.id !in s.registry.outcomes;
    hide Covered, ThreadsOk, RegistryOk;
    NewChannel(s, s', command.id, channel);
    assert s'.registry.commands.Keys == s.registry.commands.Keys + {command.id};
  }

  lemma AwaitStep(s: State, id: int, channel: nat)
    requires Inv(s) && Enabled(s, Await(id, channel))
    ensures Inv(Apply(s, Await(id, channel)))
  {
    hide Covered, ThreadsOk;
    if id in s.registry.commands {
      FreshChannel(s, channel);
      AwaitedOk(s.registry, id, channel);
      NewChannel(s, Apply(s, Await(id, channel)), id, channel);
    }
  }

  lemma MarkStep(s: State, tid: nat)
    requires Inv(s) && Enabled(s, Mark(tid))
    ensures Inv(Apply(s, Mark(tid)))
  {
    var Marking(id, status) := s.threads[tid];
    assert ThreadOk(s.rows, s.registry.commands.Keys, s.threads[tid]);
    hide Covered, ThreadsOk, RegistryOk, ChannelsOk;
    if s.rows[id].Sent? {
      MarkKeeps(s.rows, s.registry.commands.Keys, s.threads, tid, id, status);
      RowsTurnFinal(s, s.rows[id := status]);
      assert ChannelsOk(Apply(s, Mark(tid))) by {
        SameChannels(s.(rows := s.rows[id := status]), Apply(s, Mark(tid)).threads);
      }
    } else {
      MoveKeeps(s.rows, s.registry.commands.Keys, s.threads, tid, None);
      SameChannels(s, s.threads - {tid});
    }
  }

  lemma SameChannels(s: State, threads: map<nat, Pc>)
    requires ChannelsOk(s)
    ensures ChannelsOk(s.(threads := threads))
  {
    assert DeliveredOk(s.(threads := threads)) && WaitingOk(s.(threads := threads));
  }

  lemma SettleStep(s: State, tid: nat)
    requires Inv(s) && Enabled(s, Settle(tid))
    ensures Inv(Apply(s, Settle(tid)))
  {
    var s' := Apply(s, Settle(tid));
    var Settling(id, status) := s.threads[tid];
    SettleKeeps(s.rows, s.registry.commands.Keys, s.threads, tid);
    assert id in s.registry.outcomes;
    SettledOk(s.registry, id);
    hide Covered, ThreadsOk, RegistryOk, ChannelsOk;
    SettledChannels(s, id);
    SameChannels(s.(registry := s'.registry, sends := s'.sends), s'.threads);
    assert s'.registry.commands.Keys == s.registry.commands.Keys - {id};
  }

  lemma MoveStep(s: State, tid: nat, next: Option<Pc>)
    requires Inv(s) && (tid in s.threads ==> !Exclusive(s.threads[tid]))
    requires next.Some? ==> !Exclusive(next.value) && ThreadOk(s.rows, s.registry.commands.Keys, next.value)
    ensures Inv(s.(threads := if next.Some? then s.threads[tid := next.value] else s.threads - {tid}))
  {
    hide Covered, ThreadsOk, RegistryOk, ChannelsOk;
    MoveKeeps(s.rows, s.registry.commands.Keys, s.threads, tid, next);
    SameChannels(s, if next.Some? then s.threads[tid := next.value] else s.threads - {tid});
  }

  lemma RecordStep(s: State, command: PendingCommand, tid: nat)
    requires Inv(s) && Enabled(s, Record(command, tid))
    ensures Inv(Apply(s, Record(command, tid)))
  {
    hide Covered, ThreadsOk, RegistryOk, ChannelsOk;
    RecordKeeps(s.rows, s.registry.commands.Keys, s.threads, command, tid);
    RowsTurnFinal(s, s.rows[command.id := Sent]);
    SameChannels(s.(rows := s.rows[command.id := Sent]), s.threads[tid := Tracking(command)]);
  }

  lemma RestartStep(s: State, commands: map<nat, PendingCommand>)
    requires Inv(s) && Enabled(s, Restart(commands))
    ensures Inv(Apply(s, Restart(commands)))
  {
    hide Covered, ThreadsOk;
    RestartKeeps(s.rows, commands);
    var s' := Apply(s, Restart(commands));
    assert s'.registry.commands.Keys == {};
  }

  lemma StepKeeps(s: State, a: Action)
    requires Inv(s) && Enabled(s, a)
    ensures Inv(Apply(s, a)) && Evolves(s, Apply(s, a))
  {
    match a {
      case Record(command, tid) => RecordStep(s, command, tid);
      case Track(tid, channel) => TrackStep(s, tid, channel);
      case Await(id, channel) => AwaitStep(s, id, channel);
      case Published(tid) => MoveStep(s, tid, None);
      case GiveUp(tid) =>
        assert ThreadOk(s.rows, s.registry.commands.Keys, s.threads[tid]);
        MoveStep(s, tid, Some(Marking(s.threads[tid].command.id, Failed)));
      case Acknowledge(id, tid) => MoveStep(s, tid, Some(Marking(id, Acknowledged)));
      case Expire(id, tid) =>
        if id in s.registry.commands {
          MoveStep(s, tid, Some(Marking(id, TimedOut)));
        }
      case Mark(tid) => MarkStep(s, tid);
      case Settle(tid) => SettleStep(s, tid);
      case Restart(commands) => RestartStep(s, commands);
    }
  }

  // ---------- Every history ----------

  ghost predicate Init(s: State) {
    s == State(map[], Registry(map[], map[]), map[], map[], map[])
  }

  ghost predicate History(states: seq<State>, actions: seq<Action>) {
    && |states| == |actions| + 1
    && Init(states[0])
    && forall i ::
         0 <= i < |actions| ==> Enabled(states[i], actions[i]) && states[i + 1] == Apply(states[i], actions[i])
  }

  lemma {:induction false} AlwaysInv(states: seq<State>, actions: seq<Action>, k: nat)
    requires History(states, actions) && k < |states|
    ensures Inv(states[k])
  {
    if k > 0 {
      AlwaysInv(states, actions, k - 1);
      StepKeeps(states[k - 1], actions[k - 1]);
    }
  }

  /** The first final status a command gets is the one it keeps. */
  lemma {:induction false} FirstStatusWins(states: seq<State>, actions: seq<Action>, j: nat, k: nat)
    requires History(states, actions) && j <= k < |states|
    ensures Evolves(states[j], states[k])
  {
    hide History, Evolves;
    if j < k {
      FirstStatusWins(states, actions, j, k - 1);
      NextEvolves(states, actions, k - 1);
      EvolvesOn(states[j], states[k - 1], states[k]);
    } else {
      EvolvesSame(states[j]);
    }
  }

  lemma NextEvolves(states: seq<State>, actions: seq<Action>, k: nat)
    requires History(states, actions) && k + 1 < |states|
    ensures Evolves(states[k], states[k + 1])
  {
    hide Inv, Apply, Enabled, Evolves, Init;
    AlwaysInv(states, actions, k);
    StepKeeps(states[k], actions[k]);
  }

  lemma EvolvesOn(a: State, b: State, c: State)
    requires Evolves(a, b) && Evolves(b, c)
    ensures Evolves(a, c)
  {
  }

  lemma EvolvesSame(s: State)
    ensures Evolves(s, s)
  {
  }

  /**
   Somebody sets out to give the command the status: a reading that matched it, its timer, or its
   sender giving it up.
   */
  ghost predicate Tries(s: State, a: Action, id: int, status: CommandStatus) {
    match status
    case Sent => false
    case Acknowledged => a.Acknowledge? && a.id == id
    case TimedOut => a.Expire? && a.id == id
    case Failed => a.GiveUp? && a.tid in s.threads && s.threads[a.tid].Publishing? && s.threads[a.tid].command.id == id
  }

  lemma {:induction false} TriesWereMade(states: seq<State>, actions: seq<Action>, k: nat, tid: nat) returns (j: nat)
    requires History(states, actions) && k < |states| && tid in states[k].threads
    requires states[k].threads[tid].Marking? || states[k].threads[tid].Settling?
    ensures j < k && Tries(states[j], actions[j], states[k].threads[tid].id, states[k].threads[tid].status)
  {
    var (s, a, pc) := (states[k - 1], actions[k - 1], states[k].threads[tid]);
    assert Enabled(s, a) && states[k] == Apply(s, a);
    if tid in s.threads && (s.threads[tid].Marking? || s.threads[tid].Settling?)
       && s.threads[tid].id == pc.id && s.threads[tid].status == pc.status {
      j := TriesWereMade(states, actions, k - 1, tid);
    } else {
      j := k - 1;
    }
  }

  /** A command was acknowledged by a reading that matched it, timed out by its timer, or failed by its sender. */
  lemma {:induction false} StatusesHaveCauses(states: seq<State>, actions: seq<Action>, k: nat, id: int)
    returns (j: nat)
    requires History(states, actions) && k < |states| && id in states[k].rows && states[k].rows[id] != Sent
    ensures j < k && Tries(states[j], actions[j], id, states[k].rows[id])
  {
    var (s, a) := (states[k - 1], actions[k - 1]);
    assert Enabled(s, a) && states[k] == Apply(s, a);
    if id in s.rows && s.rows[id] == states[k].rows[id] {
      j := StatusesHaveCauses(states, actions, k - 1, id);
    } else {
      j := TriesWereMade(states, actions, k - 1, a.tid);
    }
  }

  /**
   Whoever sets out to settle a command tries for it, the first to try gets its status, and whoever
   asks for its outcome waits for it.
   */
  lemma EachHasItsEffect(s: State, a: Action)
    requires Inv(s) && Enabled(s, a)
    ensures var s' := Apply(s, a);
            match a
            case Record(command, tid) => command.id in s'.rows && s'.rows[command.id] == Sent
            case Track(tid, channel) =>
              var command := s.threads[tid].command;
              && command.id in s'.registry.commands && s'.registry.commands[command.id] == command
              && command.id in s'.registry.outcomes && channel in s'.registry.outcomes[command.id]
            case Await(id, channel) =>
              id in s.registry.commands ==> id in s'.registry.outcomes && channel in s'.registry.outcomes[id]
            case GiveUp(tid) => tid in s'.threads && s'.threads[tid] == Marking(s.threads[tid].command.id, Failed)
            case Acknowledge(id, tid) => tid in s'.threads && s'.threads[tid] == Marking(id, Acknowledged)
            case Expire(id, tid) =>
              id in s.registry.commands ==> tid in s'.threads && s'.threads[tid] == Marking(id, TimedOut)
            case Mark(tid) =>
              var (id, status) := (s.threads[tid].id, s.threads[tid].status);
              && id in s.rows && id in s'.rows
              && s'.rows[id] == (if s.rows[id] == Sent then status else s.rows[id])
              && (tid in s'.threads <==> s.rows[id] == Sent)
              && (s.rows[id] == Sent ==> s'.threads[tid] == Settling(id, status))
            case Settle(tid) =>
              && s.threads[tid].id !in s'.registry.commands && s.threads[tid].id !in s'.registry.outcomes
              && tid !in s'.threads
            case _ => s'.rows == s.rows
  {
    match a {
      case Mark(tid) => assert ThreadOk(s.rows, s.registry.commands.Keys, s.threads[tid]);
      case Await(id, channel) =>
        if id in s.registry.commands {
          var outcomes := Apply(s, a).registry.outcomes[id];
          assert outcomes[|outcomes| - 1] == channel;
        }
      case _ =>
    }
    hide ChannelsOk, Covered;
  }

  /** The k-th step is the one that gave the command its final status. */
  ghost predicate Wins(states: seq<State>, k: nat, id: int)
    requires k + 1 < |states|
  {
    && id in states[k].rows && states[k].rows[id].Sent?
    && id in states[k + 1].rows && Terminal(states[k + 1].rows[id])
  }

  /** However acknowledgements, timeouts, failures and restarts interleave, only one of them wins a command. */
  lemma OneWinner(states: seq<State>, actions: seq<Action>, j: nat, k: nat, id: int)
    requires History(states, actions) && j < |actions| && k < |actions|
    requires Wins(states, j, id) && Wins(states, k, id)
    ensures j == k
    ensures actions[j].Mark? && states[j].threads[actions[j].tid] == Marking(id, states[j + 1].rows[id])
  {
    if j < k {
      FirstStatusWins(states, actions, j + 1, k);
    } else if k < j {
      FirstStatusWins(states, actions, k + 1, j);
    }
    hide Inv, Evolves;
    WinningIsMarking(states[j], actions[j], id);
  }

  lemma WinningIsMarking(s: State, a: Action, id: int)
    requires Enabled(s, a) && id in s.rows && s.rows[id].Sent? && Terminal(Apply(s, a).rows[id])
    requires id in Apply(s, a).rows
    ensures a.Mark? && s.threads[a.tid] == Marking(id, Apply(s, a).rows[id])
  {
  }

  /** No restart between two moments. */
  ghost predicate Uninterrupted(actions: seq<Action>, j: nat, k: nat)
    requires j <= k <= |actions|
  {
    forall i :: j <= i < k ==> !actions[i].Restart?
  }

  lemma {:induction false} ChannelsStay(states: seq<State>, actions: seq<Action>, j: nat, k: nat, channel: nat)
    requires History(states, actions) && j <= k < |states| && Uninterrupted(actions, j, k)
    requires channel in states[j].sends && channel in states[j].owner
    ensures channel in states[k].sends && channel in states[k].owner
            && states[k].owner[channel] == states[j].owner[channel]
  {
    if j < k {
      ChannelsStay(states, actions, j, k - 1, channel);
      var a := actions[k - 1];
      assert !a.Restart?;
    }
  }

  /**
   A channel handed out by Track or Await has, for as long as the process
   lives, been sent nothing or exactly the final status of its command: nothing
   while it waits, and from the moment the command is settled that status, once.
   */
  lemma OutcomeDeliveredOnce(states: seq<State>, actions: seq<Action>, j: nat, k: nat, channel: nat)
    requires History(states, actions) && j <= k < |states| && Uninterrupted(actions, j, k)
    requires channel in states[j].sends && channel in states[j].owner
    ensures var (s, id) := (states[k], states[j].owner[channel]);
            && channel in s.sends
            && (Registered(s.registry, channel) ==> id in s.registry.commands && s.sends[channel] == [])
            && (!Registered(s.registry, channel) ==>
                  id in s.rows && Terminal(s.rows[id]) && s.sends[channel] == [s.rows[id]])
  {
    AlwaysInv(states, actions, k);
    ChannelsStay(states, actions, j, k, channel);
    hide Covered, ThreadsOk;
  }

  /** When a command is settled, each channel waiting on it is empty, so no send made under the lock can block. */
  lemma SettlingNeverBlocks(states: seq<State>, actions: seq<Action>, k: nat)
    requires History(states, actions) && k < |actions| && actions[k].Settle?
    ensures var s := states[k]; var id := s.threads[actions[k].tid].id;
            && id in s.registry.outcomes
            && forall i :: 0 <= i < |s.registry.outcomes[id]| ==>
                 s.registry.outcomes[id][i] in s.sends && s.sends[s.registry.outcomes[id][i]] == []
  {
    AlwaysInv(states, actions, k);
    var s := states[k];
    assert ThreadOk(s.rows, s.registry.commands.Keys, s.threads[actions[k].tid]);
  }

  /** Between operations the tracker holds the commands still sent, and no others. */
  lemma TrackedAreSent(states: seq<State>, actions: seq<Action>, k: nat)
    requires History(states, actions) && k < |states|
    requires forall tid :: tid in states[k].threads ==> !Exclusive(states[k].threads[tid])
    ensures var s := states[k]; s.registry.commands.Keys == set id | id in s.rows && s.rows[id].Sent?
  {
    AlwaysInv(states, actions, k);
    var s := states[k];
    forall id ensures id in s.registry.commands <==> id in s.rows && s.rows[id].Sent? {
      assert forall tid :: !Settles(s.threads, tid, id) && !Tracks(s.threads, tid, id);
    }
  }
}
