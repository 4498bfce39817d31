/**
 The loop guard: runs started by readings that acknowledge other runs'
 commands, and the limit on how many may follow from one another.
 */
module CauseChains {
  import opened Wrappers

  datatype Kind = Admitted | Skipped | Refused

  /** The limit is the one the run's guard went by. The store does not keep it, and no step reads it. */
  datatype Node = Node(kind: Kind, cause: Option<int>, limit: nat)

  type Runs = map<int, Node>

  /** A run's cause is older than the run, so chains end. */
  ghost predicate Acyclic(runs: Runs) {
    forall id :: id in runs ==> Older(runs, id)
  }

  predicate Older(runs: Runs, id: int)
    requires id in runs
  {
    0 < id && (runs[id].cause.Some? ==> runs[id].cause.value in runs && runs[id].cause.value < id)
  }

  /** The recursive query: the run itself at depth 1, then each one's cause while the depth is below the limit. */
  function CauseChain(runs: Runs, id: int, limit: nat): seq<int>
    requires limit > 0
    decreases limit
  {
    if id !in runs then []
    else if limit == 1 || runs[id].cause.None? then [id]
    else [id] + CauseChain(runs, runs[id].cause.value, limit - 1)
  }

  /** The run, its cause, its cause's cause and so on, without a limit. */
  ghost function Ancestors(runs: Runs, id: int): (chain: seq<int>)
    requires Acyclic(runs)
    ensures id in runs <==> chain != []
    decreases id
  {
    if id !in runs then []
    else
      assert Older(runs, id);
      if runs[id].cause.None? then [id] else [id] + Ancestors(runs, runs[id].cause.value)
  }

  /** The query gives the first ancestors, as many as the limit lets it. */
  lemma {:induction false} ChainIsFirstAncestors(runs: Runs, id: int, limit: nat)
    requires Acyclic(runs) && limit > 0
    ensures var all := Ancestors(runs, id);
            CauseChain(runs, id, limit) == all[..if |all| < limit then |all| else limit]
  {
    if id in runs {
      assert Older(runs, id);
      if runs[id].cause.Some? && limit > 1 {
        ChainIsFirstAncestors(runs, runs[id].cause.value, limit - 1);
      }
    }
  }

  /** Deleting runs leaves those they caused without a cause. */
  function Deleted(runs: Runs, ids: set<int>): Runs {
    map id | id in runs && id !in ids ::
      if runs[id].cause.Some? && runs[id].cause.value in ids then runs[id].(cause := None) else runs[id]
  }

  /** The chain as far as the first of the runs given. */
  ghost function UpToAny(chain: seq<int>, ids: set<int>): seq<int> {
    if chain == [] || chain[0] in ids then [] else [chain[0]] + UpToAny(chain[1..], ids)
  }

  /** Chains lose what is at or beyond a deleted run, and nothing else. */
  lemma {:induction false} DeletedShrinks(runs: Runs, ids: set<int>, id: int)
    requires Acyclic(runs)
    ensures Acyclic(Deleted(runs, ids)) && Ancestors(Deleted(runs, ids), id) <= Ancestors(runs, id)
    ensures Ancestors(Deleted(runs, ids), id) == UpToAny(Ancestors(runs, id), ids)
    decreases id
  {
    var left := Deleted(runs, ids);
    forall other | other in left ensures Older(left, other) {
      assert Older(runs, other);
    }
    if id in left && left[id].cause.Some? {
      assert Older(runs, id);
      DeletedShrinks(runs, ids, left[id].cause.value);
    } else if id in left && runs[id].cause.Some? {
      assert Older(runs, id);
      assert Ancestors(runs, id)[1..] == Ancestors(runs, runs[id].cause.value);
    }
  }

  lemma {:induction false} InsertedKeeps(runs: Runs, id: int, node: Node, other: int)
    requires Acyclic(runs) && id !in runs && 0 < id && other != id
    requires node.cause.Some? ==> node.cause.value in runs && node.cause.value < id
    ensures Acyclic(runs[id := node]) && Ancestors(runs[id := node], other) == Ancestors(runs, other)
    decreases other
  {
    var more := runs[id := node];
    forall each | each in more ensures Older(more, each) {
      assert each != id ==> Older(runs, each);
    }
    if other in runs && runs[other].cause.Some? {
      assert Older(runs, other);
      InsertedKeeps(runs, id, node, runs[other].cause.value);
    }
  }

  // ---------- Starting runs ----------

  /** A run being started for a cause: not looked at yet, let through, or refused, by the limit configured then. */
  datatype Pc = Guarding | Letting(limit: nat) | Refusing(limit: nat)

  datatype Thread = Thread(cause: int, pc: Pc)

  /**
   executed holds every run ever started, deleted since or not. Only they send
   commands: RunGuarantees.UnstartedRunsSendNothing shows that of the run protocol.
   */
  datatype State = State(runs: Runs, nextId: int, executed: set<int>, threads: map<nat, Thread>)

  datatype Action =
    | Acknowledge(tid: nat, run: int)          // a reading acknowledges a command the run sent, and fires a trigger
    | Guard(tid: nat, limit: nat)
    | Admit(tid: nat, kind: Kind)              // whether the mode lets it run or skips it does not matter here
    | Refuse(tid: nat)
    | StartUncaused(kind: Kind)                // by a schedule, an interval, a user or a reading nobody caused
    | Delete(ids: set<int>)

  predicate Enabled(s: State, a: Action) {
    match a
    case Acknowledge(tid, run) => tid !in s.threads && run in s.executed
    case Guard(tid, limit) => tid in s.threads && s.threads[tid].pc.Guarding? && limit > 0
    case Admit(tid, kind) => tid in s.threads && s.threads[tid].pc.Letting? && !kind.Refused?
    case Refuse(tid) => tid in s.threads && s.threads[tid].pc.Refusing?
    case StartUncaused(kind) => !kind.Refused?
    case Delete(_) => true
  }

  /** A run whose cause has been deleted cannot be inserted. */
  function Insert(s: State, tid: nat, kind: Kind): State
    requires tid in s.threads && !s.threads[tid].pc.Guarding?
  {
    var cause := s.threads[tid].cause;
    if cause !in s.runs then s.(threads := s.threads - {tid})
    else State(s.runs[s.nextId := Node(kind, Some(cause), s.threads[tid].pc.limit)], s.nextId + 1,
               if kind.Admitted? then s.executed + {s.nextId} else s.executed, s.threads - {tid})
  }

  function Apply(s: State, a: Action): State
    requires Enabled(s, a)
  {
    match a
    case Acknowledge(tid, run) => s.(threads := s.threads[tid := Thread(run, Guarding)])
    case Guard(tid, limit) =>
      var chain := CauseChain(s.runs, s.threads[tid].cause, limit);
      var pc := if |chain| < limit then Letting(limit) else Refusing(limit);
      s.(threads := s.threads[tid := s.threads[tid].(pc := pc)])
    case Admit(tid, kind) => Insert(s, tid, kind)
    case Refuse(tid) => Insert(s, tid, Refused)
    case StartUncaused(kind) =>
      s.(runs := s.runs[s.nextId := Node(kind, None, 1)], nextId := s.nextId + 1,
         executed := if kind.Admitted? then s.executed + {s.nextId} else s.executed)
    case Delete(ids) => s.(runs := Deleted(s.runs, ids))
  }

  ghost predicate RunsOk(s: State) {
    && Acyclic(s.runs) && 0 < s.nextId
    && (forall id :: id in s.runs ==> id < s.nextId)
    && (forall id :: id in s.executed ==> id < s.nextId)
  }

  /** Only runs that were executed cause others. */
  ghost predicate CausesOk(s: State) {
    && (forall id :: id in s.runs && s.runs[id].cause.Some? ==> s.runs[id].cause.value in s.executed)
    && (forall id :: id in s.runs ==> (s.runs[id].kind.Admitted? <==> id in s.executed))
    && (forall tid :: tid in s.threads ==> s.threads[tid].cause in s.executed)
  }

  /** No run that is executed, or skipped, is further along a chain than its limit, and one let through will not be. */
  ghost predicate WithinLimit(s: State)
    requires Acyclic(s.runs)
  {
    && (forall id :: id in s.runs && !s.runs[id].kind.Refused? ==> |Ancestors(s.runs, id)| <= s.runs[id].limit)
    && (forall tid :: tid in s.threads && s.threads[tid].pc.Letting? ==>
          |Ancestors(s.runs, s.threads[tid].cause)| < s.threads[tid].pc.limit)
  }

  ghost predicate Inv(s: State) {
    RunsOk(s) && CausesOk(s) && WithinLimit(s)
  }

  lemma InsertKeeps(s: State, tid: nat, kind: Kind)
    requires Inv(s) && tid in s.threads
             && (s.threads[tid].pc.Letting? || (s.threads[tid].pc.Refusing? && kind.Refused?))
    ensures Inv(Insert(s, tid, kind))
  {
    var cause := s.threads[tid].cause;
    if cause in s.runs {
      var node := Node(kind, Some(cause), s.threads[tid].pc.limit);
      var more := s.runs[s.nextId := node];
      forall other | other != s.nextId ensures Acyclic(more) && Ancestors(more, other) == Ancestors(s.runs, other) {
        InsertedKeeps(s.runs, s.nextId, node, other);
      }
      assert Acyclic(more);
      assert Ancestors(more, s.nextId) == [s.nextId] + Ancestors(s.runs, cause);
    }
  }

  lemma StartKeeps(s: State, kind: Kind)
    requires Inv(s) && !kind.Refused?
    ensures Inv(Apply(s, StartUncaused(kind)))
  {
    var node := Node(kind, None, 1);
    var more := s.runs[s.nextId := node];
    forall other | other != s.nextId ensures Acyclic(more) && Ancestors(more, other) == Ancestors(s.runs, other) {
      InsertedKeeps(s.runs, s.nextId, node, other);
    }
    assert Ancestors(more, s.nextId) == [s.nextId];
  }

  lemma DeleteKeeps(s: State, ids: set<int>)
    requires Inv(s)
    ensures Inv(Apply(s, Delete(ids)))
  {
    var left := Deleted(s.runs, ids);
    forall id ensures Acyclic(left) && Ancestors(left, id) <= Ancestors(s.runs, id) {
      DeletedShrinks(s.runs, ids, id);
    }
  }

  lemma GuardKeeps(s: State, tid: nat, limit: nat)
    requires Inv(s) && Enabled(s, Guard(tid, limit))
    ensures Inv(Apply(s, Guard(tid, limit)))
  {
    ChainIsFirstAncestors(s.runs, s.threads[tid].cause, limit);
  }

  lemma StepKeeps(s: State, a: Action)
    requires Inv(s) && Enabled(s, a)
    ensures Inv(Apply(s, a))
  {
    match a {
      case Guard(tid, limit) => GuardKeeps(s, tid, limit);
      case Admit(tid, kind) => InsertKeeps(s, tid, kind);
      case Refuse(tid) => InsertKeeps(s, tid, Refused);
      case StartUncaused(kind) => StartKeeps(s, kind);
      case Delete(ids) => DeleteKeeps(s, ids);
      case Acknowledge(tid, run) => AcknowledgeKeeps(s, tid, run);
    }
  }

  lemma AcknowledgeKeeps(s: State, tid: nat, run: int)
    requires Inv(s) && Enabled(s, Acknowledge(tid, run))
    ensures Inv(Apply(s, Acknowledge(tid, run)))
  {
  }

  // ---------- Every history ----------

  ghost predicate Init(s: State) {
    s.runs == map[] && s.nextId == 1 && s.executed == {} && s.threads == map[]
  }

  ghost predicate History(states: seq<State>, actions: seq<Action>) {
    && |states| == |actions| + 1
    && Init(states[0])
    && forall i ::
         0 <= i < |actions| ==> Enabled(states[i], actions[i]) && states[i + 1] == Apply(states[i], actions[i])
  }

  lemma {:induction false} AlwaysInv(states: seq<State>, actions: seq<Action>, k: nat)
    requires History(states, actions) && k < |states|
    ensures Inv(states[k])
  {
    if k > 0 {
      AlwaysInv(states, actions, k - 1);
      StepKeeps(states[k - 1], actions[k - 1]);
    }
  }

  /**
   Every run ever executed has at most as many runs on its chain, itself included,
   as the limit its own guard went by, however the limit is configured meanwhile;
   one nobody caused is alone on its chain.
   */
  lemma ChainsStayWithinLimit(states: seq<State>, actions: seq<Action>, k: nat, id: int)
    requires History(states, actions) && k < |states| && id in states[k].executed
    ensures Acyclic(states[k].runs)
    ensures |Ancestors(states[k].runs, id)| <= if id in states[k].runs then states[k].runs[id].limit else 0
  {
    AlwaysInv(states, actions, k);
  }

  /** All on a chain but the run it is followed from were executed: a refused or skipped run leads to nothing. */
  lemma {:induction false} OnlyExecutedRunsLead(states: seq<State>, actions: seq<Action>, k: nat, id: int, i: nat)
    requires History(states, actions) && k < |states| && Acyclic(states[k].runs)
    requires 0 < i < |Ancestors(states[k].runs, id)|
    ensures Ancestors(states[k].runs, id)[i] in states[k].executed
    decreases i
  {
    AlwaysInv(states, actions, k);
    var runs := states[k].runs;
    assert Older(runs, id);
    if i > 1 {
      OnlyExecutedRunsLead(states, actions, k, runs[id].cause.value, i - 1);
    }
  }

  /** A limit that was never configured above some number bounds every chain by that number. */
  lemma {:induction false} HighestLimitHolds(states: seq<State>, actions: seq<Action>, k: nat, highest: nat, id: int)
    requires History(states, actions) && k < |states| && id in states[k].executed && highest > 0
    requires forall i :: 0 <= i < k && actions[i].Guard? ==> actions[i].limit <= highest
    ensures Acyclic(states[k].runs) && |Ancestors(states[k].runs, id)| <= highest
  {
    ChainsStayWithinLimit(states, actions, k, id);
    LimitsWereConfigured(states, actions, k, highest);
  }

  ghost predicate LimitsUpTo(s: State, highest: nat) {
    && (forall id :: id in s.runs ==> s.runs[id].limit <= highest)
    && (forall tid :: tid in s.threads && !s.threads[tid].pc.Guarding? ==> s.threads[tid].pc.limit <= highest)
  }

  lemma {:induction false} LimitsWereConfigured(states: seq<State>, actions: seq<Action>, k: nat, highest: nat)
    requires History(states, actions) && k < |states| && highest > 0
    requires forall i :: 0 <= i < k && actions[i].Guard? ==> actions[i].limit <= highest
    ensures LimitsUpTo(states[k], highest)
  {
    if k > 0 {
      LimitsWereConfigured(states, actions, k - 1, highest);
      StepKeepsLimits(states[k - 1], actions[k - 1], highest);
    }
  }

  lemma StepKeepsLimits(s: State, a: Action, highest: nat)
    requires Enabled(s, a) && LimitsUpTo(s, highest) && highest > 0 && (a.Guard? ==> a.limit <= highest)
    ensures LimitsUpTo(Apply(s, a), highest)
  {
  }

  /** The guard refuses exactly the runs whose cause ends a chain as long as the limit it goes by. */
  lemma GuardRefusesFullChains(states: seq<State>, actions: seq<Action>, k: nat)
    requires History(states, actions) && k < |actions| && actions[k].Guard?
    ensures Acyclic(states[k].runs)
    ensures var (s, tid) := (states[k], actions[k].tid);
            states[k + 1].threads[tid].pc.Refusing? <==> |Ancestors(s.runs, s.threads[tid].cause)| >= actions[k].limit
  {
    AlwaysInv(states, actions, k);
    ChainIsFirstAncestors(states[k].runs, states[k].threads[actions[k].tid].cause, actions[k].limit);
  }

  // ---------- Which runs there are, and what caused them ----------

  /**
   A run is put in the table, of the kind and for the cause given, and counts as executed exactly if
   it was admitted.
   */
  ghost predicate Starts(s: State, s': State, kind: Kind, cause: Option<int>) {
    && s.nextId in s'.runs && s'.runs[s.nextId].kind == kind && s'.runs[s.nextId].cause == cause
    && s'.nextId == s.nextId + 1 && s'.executed == (if kind == Admitted then s.executed + {s.nextId} else s.executed)
    && (forall id ::
          id != s.nextId ==> (id in s.runs <==> id in s'.runs) && (id in s.runs ==> s'.runs[id] == s.runs[id]))
  }

  /**
   A run started for a reading has the run whose command the reading acknowledged for its cause, if
   that is still there.
   */
  lemma StepStarts(s: State, a: Action)
    requires Enabled(s, a) && Inv(s)
    ensures var s' := Apply(s, a);
            match a
            case Admit(tid, kind) =>
              var cause := s.threads[tid].cause;
              if cause in s.runs then
                && Starts(s, s', kind, Some(cause)) && Acyclic(s'.runs)
                && Ancestors(s'.runs, s.nextId) == [s.nextId] + Ancestors(s.runs, cause)
              else s'.runs == s.runs && s'.executed == s.executed
            case Refuse(tid) =>
              var cause := s.threads[tid].cause;
              if cause in s.runs then Starts(s, s', Refused, Some(cause))
              else s'.runs == s.runs && s'.executed == s.executed
            case StartUncaused(kind) => Starts(s, s', kind, None)
            case Delete(ids) =>
              s'.runs.Keys == s.runs.Keys - ids && s'.executed == s.executed
              && forall id :: id in s'.runs ==> s'.runs[id].kind == s.runs[id].kind
            case Acknowledge(tid, run) =>
              tid in s'.threads && s'.threads[tid] == Thread(run, Guarding) && s'.runs == s.runs
              && s'.executed == s.executed
            case Guard(tid, limit) =>
              && tid in s'.threads && s'.threads[tid].cause == s.threads[tid].cause
              && s'.threads[tid].pc == (if |Ancestors(s.runs, s.threads[tid].cause)| < limit then Letting(limit)
                                        else Refusing(limit))
              && s'.runs == s.runs && s'.executed == s.executed
  {
    if a.Guard? {
      ChainIsFirstAncestors(s.runs, s.threads[a.tid].cause, a.limit);
    }
    if a.Admit? && s.threads[a.tid].cause in s.runs {
      InsertKeeps(s, a.tid, a.kind);
      InsertedKeeps(s.runs, s.nextId, Apply(s, a).runs[s.nextId], s.threads[a.tid].cause);
    }
  }

  /** What a run is being started for is a run whose command a reading acknowledged. */
  lemma {:induction false} CausesWereAcknowledged(states: seq<State>, actions: seq<Action>, k: nat, tid: nat)
    returns (j: nat)
    requires History(states, actions) && k < |states| && tid in states[k].threads
    ensures j < k && actions[j] == Acknowledge(tid, states[k].threads[tid].cause)
  {
    assert Enabled(states[k - 1], actions[k - 1]) && states[k] == Apply(states[k - 1], actions[k - 1]);
    if tid in states[k - 1].threads && states[k - 1].threads[tid].cause == states[k].threads[tid].cause {
      j := CausesWereAcknowledged(states, actions, k - 1, tid);
    } else {
      j := k - 1;
    }
  }

  /** A run with a cause was started for a reading that acknowledged a command of that cause. */
  lemma {:induction false} CausedRunsWereTriggered(states: seq<State>, actions: seq<Action>, k: nat, id: int)
    returns (j: nat)
    requires History(states, actions) && k < |states| && id in states[k].runs && states[k].runs[id].cause.Some?
    ensures j < k && actions[j].Acknowledge? && actions[j].run == states[k].runs[id].cause.value
  {
    assert Enabled(states[k - 1], actions[k - 1]) && states[k] == Apply(states[k - 1], actions[k - 1]);
    if id in states[k - 1].runs && states[k - 1].runs[id].cause == states[k].runs[id].cause {
      j := CausedRunsWereTriggered(states, actions, k - 1, id);
    } else {
      j := CausesWereAcknowledged(states, actions, k - 1, actions[k - 1].tid);
    }
  }
}
