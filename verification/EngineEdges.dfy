/**
 What every operation of the engine does to each reading trigger's edge, as actions
 of the trigger on its own: the engine's edges refine those of EdgeHistories.
 */
module EngineEdges {
  import opened Wrappers
  import opened Edges
  import opened Automations
  import opened DueQueue
  import opened EngineIndexes
  import opened EdgeHistories

  /** The engine's edges, what is due or popped for their holds, and when the newest reading was noted. */
  datatype View = View(
    edges: map<int, EdgeState>,
    entries: map<DueKey, Instant>,
    popped: seq<Popped>,
    clock: Instant,
    seen: Instant)

  datatype Request =
    | Other
    | Reads(list: seq<Trigger>, reading: Reading, cause: Option<int>, at: Instant)
    | HandsOver(id: int, due: Instant)

  /** One operation: the automations it found, those of them it edited, and what it was asked to do with edges. */
  datatype Call = Call(automations: map<int, Automation>, edited: set<int>, request: Request)

  /** The due times of the trigger's holds that were popped. */
  ghost function PoppedHolds(popped: seq<Popped>, id: int): multiset<Instant> {
    if popped == [] then multiset{}
    else (if popped[0].key == HoldKey(id) then multiset{popped[0].due} else multiset{}) + PoppedHolds(popped[1..], id)
  }

  ghost function EntryOf(entries: map<DueKey, Instant>, id: int): Option<Instant> {
    if HoldKey(id) in entries then Some(entries[HoldKey(id)]) else None
  }

  /** The trigger on its own, as the engine has it. */
  ghost predicate Shows(v: View, id: int, s: State) {
    && (s.armed <==> id in v.edges)
    && s.edge == (if id in v.edges then v.edges[id] else NEW_EDGE)
    && s.entry == EntryOf(v.entries, id) && (s.entry.Some? ==> s.armed)
    && s.popped == PoppedHolds(v.popped, id)
    && s.clock == v.clock && s.seen <= v.seen
  }

  function Perform(c: ReadingCondition, s: State, actions: seq<Action>): Option<State>
    decreases |actions|
  {
    if actions == [] then Some(s)
    else if !Enabled(s, actions[0]) then None
    else Perform(c, Apply(c, s, actions[0]), actions[1..])
  }

  /** The actions take the trigger on its own where the engine takes it. */
  ghost predicate Moves(v: View, v': View, id: int, c: ReadingCondition, actions: seq<Action>) {
    forall s :: Shows(v, id, s) ==>
      var done := Perform(c, s, actions);
      done.Some? && Shows(v', id, done.value)
  }

  /** The ID, if it is listed at all, is that of a trigger with the condition given. */
  ghost predicate Means(automations: map<int, Automation>, id: int, c: ReadingCondition) {
    forall t :: t in Listed(automations) && t.kind.OnReading? && t.id == id ==> t.kind.condition == c
  }

  ghost predicate Owned(automations: map<int, Automation>, edited: set<int>, id: int) {
    exists a :: a in edited && a in automations && HasTrigger(automations[a], id)
  }

  ghost predicate IsListed(list: seq<Trigger>, id: int) {
    exists i :: 0 <= i < |list| && list[i].id == id
  }

  /** The readings and due holds a trigger is given. */
  function Inputs(actions: seq<Action>): seq<Action> {
    if actions == [] then []
    else (if actions[0].See? || actions[0].HandOver? then [actions[0]] else []) + Inputs(actions[1..])
  }

  ghost function Given(request: Request, id: int): seq<Action> {
    match request
    case Other => []
    case Reads(list, reading, cause, at) => if IsListed(list, id) then [See(reading, cause, at)] else []
    case HandsOver(other, due) => if other == id then [HandOver(due)] else []
  }

  /**
   The actions are those of the call: the trigger is given what the call gives it, and dropped only
   if its automation is edited.
   */
  ghost predicate ActionsOf(call: Call, id: int, actions: seq<Action>) {
    Inputs(actions) == Given(call.request, id) && (Drop in actions ==> Owned(call.automations, call.edited, id))
  }

  ghost predicate TriggerMoves(call: Call, v: View, v': View, id: int, c: ReadingCondition) {
    exists actions :: Moves(v, v', id, c, actions) && ActionsOf(call, id, actions)
  }

  ghost predicate EdgesMove(call: Call, v: View, v': View) {
    forall id, c :: Means(call.automations, id, c) ==> TriggerMoves(call, v, v', id, c)
  }

  // ---------- Actions in turn ----------

  lemma PerformOne(c: ReadingCondition, s: State, a: Action)
    ensures Perform(c, s, [a]) == if Enabled(s, a) then Some(Apply(c, s, a)) else None
  {
    hide Enabled, Apply;
    assert [a][1..] == [];
  }

  lemma PerformTwo(c: ReadingCondition, s: State, a: Action, b: Action)
    requires Enabled(s, a) && Enabled(Apply(c, s, a), b)
    ensures Perform(c, s, [a, b]) == Some(Apply(c, Apply(c, s, a), b))
  {
    hide Enabled, Apply;
    assert [a, b][1..] == [b];
    PerformOne(c, Apply(c, s, a), b);
  }

  lemma {:induction false} PerformMore(c: ReadingCondition, s: State, first: seq<Action>, rest: seq<Action>)
    requires Perform(c, s, first).Some?
    ensures Perform(c, s, first + rest) == Perform(c, Perform(c, s, first).value, rest)
    decreases |first|
  {
    hide Enabled, Apply;
    if first == [] {
      assert first + rest == rest;
    } else {
      assert (first + rest)[1..] == first[1..] + rest;
      PerformMore(c, Apply(c, s, first[0]), first[1..], rest);
    }
  }

  lemma {:induction false} InputsMore(first: seq<Action>, rest: seq<Action>)
    ensures Inputs(first + rest) == Inputs(first) + Inputs(rest)
    decreases |first|
  {
    if first == [] {
      assert first + rest == rest;
    } else {
      var head := if first[0].See? || first[0].HandOver? then [first[0]] else [];
      assert (first + rest)[1..] == first[1..] + rest;
      InputsMore(first[1..], rest);
      assert head + (Inputs(first[1..]) + Inputs(rest)) == head + Inputs(first[1..]) + Inputs(rest);
    }
  }

  lemma InputsOne(a: Action)
    ensures Inputs([a]) == if a.See? || a.HandOver? then [a] else []
  {
    assert [a][1..] == [];
  }

  lemma InputsTwo(a: Action, b: Action)
    ensures Inputs([a, b]) == Inputs([a]) + Inputs([b])
  {
    assert [a, b] == [a] + [b];
    InputsMore([a], [b]);
  }

  lemma MovesMore(v: View, v': View, v'': View, id: int, c: ReadingCondition, first: seq<Action>, rest: seq<Action>)
    requires Moves(v, v', id, c, first) && Moves(v', v'', id, c, rest)
    ensures Moves(v, v'', id, c, first + rest)
  {
    hide Shows, Perform;
    forall s | Shows(v, id, s)
      ensures var done := Perform(c, s, first + rest); done.Some? && Shows(v'', id, done.value)
    {
      PerformMore(c, s, first, rest);
    }
  }

  // ---------- What each operation does to one trigger ----------

  ghost predicate Kept(edges: map<int, EdgeState>, edges': map<int, EdgeState>, entries: map<DueKey, Instant>,
                       entries': map<DueKey, Instant>, id: int) {
    && (id in edges <==> id in edges') && (id in edges ==> edges'[id] == edges[id])
    && SameAt(entries, entries', HoldKey(id))
  }

  /** Dropped, armed anew or both, with nothing left of a hold but what was popped. */
  ghost predicate IsNew(edges': map<int, EdgeState>, entries': map<DueKey, Instant>, id: int) {
    (id in edges' ==> edges'[id] == NEW_EDGE) && HoldKey(id) !in entries'
  }

  /** Nothing happens to the trigger but that time passes. */
  ghost predicate SameTrigger(v: View, v': View, id: int) {
    Kept(v.edges, v'.edges, v.entries, v'.entries, id) && PoppedHolds(v.popped, id) == PoppedHolds(v'.popped, id)
  }

  lemma Waits(v: View, v': View, id: int, c: ReadingCondition)
    requires SameTrigger(v, v', id) && v'.clock >= v.clock && v'.seen >= v.seen
    ensures Moves(v, v', id, c, [Tick(v'.clock)]) && Inputs([Tick(v'.clock)]) == []
  {
    InputsOne(Tick(v'.clock));
    forall s | Shows(v, id, s)
      ensures var done := Perform(c, s, [Tick(v'.clock)]); done.Some? && Shows(v', id, done.value)
    {
      PerformOne(c, s, Tick(v'.clock));
    }
  }

  lemma WaitsThen(v: View, v': View, id: int, c: ReadingCondition, a: Action)
    requires v'.clock >= v.clock && v'.seen >= v.seen
    requires forall s :: Shows(v.(clock := v'.clock), id, s) ==> Enabled(s, a) && Shows(v', id, Apply(c, s, a))
    ensures Moves(v, v', id, c, [Tick(v'.clock), a])
  {
    forall s | Shows(v, id, s)
      ensures var done := Perform(c, s, [Tick(v'.clock), a]); done.Some? && Shows(v', id, done.value)
    {
      var s' := Apply(c, s, Tick(v'.clock));
      assert Shows(v.(clock := v'.clock), id, s');
      PerformTwo(c, s, Tick(v'.clock), a);
    }
  }

  function Renewing(dropped: bool, armed: bool, clock: Instant): seq<Action> {
    (if dropped then [Drop] else []) + [Tick(clock)] + if armed then [Arm] else []
  }

  lemma Renews(v: View, v': View, id: int, c: ReadingCondition)
    requires IsNew(v'.edges, v'.entries, id) && v'.popped == v.popped && v'.clock >= v.clock && v'.seen == v.seen
    ensures Moves(v, v', id, c, Renewing(id in v.edges, id in v'.edges, v'.clock))
    ensures Inputs(Renewing(id in v.edges, id in v'.edges, v'.clock)) == []
  {
    hide Enabled, Apply;
    var (dropped, rested) :=
      (v.(edges := v.edges - {id}, entries := v.entries - {HoldKey(id)}), v'.(edges := v'.edges - {id}));
    var (drops, arms) := (if id in v.edges then [Drop] else [], if id in v'.edges then [Arm] else []);
    DropMoves(v, id, c);
    Waits(dropped, rested, id, c);
    ArmMoves(v', id, c);
    MovesMore(v, dropped, rested, id, c, drops, [Tick(v'.clock)]);
    MovesMore(v, rested, v', id, c, drops + [Tick(v'.clock)], arms);
    InputsMore(drops, [Tick(v'.clock)]);
    InputsMore(drops + [Tick(v'.clock)], arms);
    InputsOne(Drop);
    InputsOne(Arm);
  }

  lemma DropMoves(v: View, id: int, c: ReadingCondition)
    ensures Moves(v, v.(edges := v.edges - {id}, entries := v.entries - {HoldKey(id)}), id, c,
                  if id in v.edges then [Drop] else [])
  {
    var v' := v.(edges := v.edges - {id}, entries := v.entries - {HoldKey(id)});
    forall s | Shows(v, id, s)
      ensures var done := Perform(c, s, if id in v.edges then [Drop] else []); done.Some? && Shows(v', id, done.value)
    {
      PerformOne(c, s, Drop);
    }
  }

  lemma ArmMoves(v': View, id: int, c: ReadingCondition)
    requires IsNew(v'.edges, v'.entries, id)
    ensures Moves(v'.(edges := v'.edges - {id}), v', id, c, if id in v'.edges then [Arm] else [])
  {
    var v := v'.(edges := v'.edges - {id});
    forall s | Shows(v, id, s)
      ensures var done := Perform(c, s, if id in v'.edges then [Arm] else []); done.Some? && Shows(v', id, done.value)
    {
      PerformOne(c, s, Arm);
    }
  }

  // ---------- What each operation does to all of them ----------

  /** Edges stay as they are, and their holds with the scheduler or on their way. */
  lemma EdgesWait(call: Call, v: View, v': View)
    requires call.request == Other && v'.clock >= v.clock && v'.seen == v.seen && v'.edges == v.edges
    requires forall id :: SameAt(v.entries, v'.entries, HoldKey(id))
    requires v'.popped == v.popped || (v.popped != [] && !v.popped[0].key.kind.DueHold? && v'.popped == v.popped[1..])
    ensures EdgesMove(call, v, v')
  {
    hide Moves;
    forall id, c ensures TriggerMoves(call, v, v', id, c) {
      assert SameAt(v.entries, v'.entries, HoldKey(id));
      Waits(v, v', id, c);
      assert ActionsOf(call, id, [Tick(v'.clock)]);
    }
  }

  ghost predicate HandedOver(v: View, v': View, id: int, due: Instant) {
    && v.popped != [] && v.popped[0] == Popped(HoldKey(id), due) && v'.popped == v.popped[1..]
    && v'.clock >= v.clock && v'.seen == v.seen && v'.entries == v.entries
    && v'.edges == if id in v.edges && Elapsed(v.edges[id], due).1 then v.edges[id := Elapsed(v.edges[id], due).0]
       else v.edges
  }

  lemma OneHandedOver(v: View, v': View, id: int, due: Instant, c: ReadingCondition)
    requires HandedOver(v, v', id, due)
    ensures Moves(v, v', id, c, [Tick(v'.clock), HandOver(due)])
    ensures Inputs([Tick(v'.clock), HandOver(due)]) == [HandOver(due)]
  {
    forall s | Shows(v.(clock := v'.clock), id, s)
      ensures Enabled(s, HandOver(due)) && Shows(v', id, Apply(c, s, HandOver(due)))
    {
    }
    hide Shows, Enabled, Apply;
    WaitsThen(v, v', id, c, HandOver(due));
    InputsTwo(Tick(v'.clock), HandOver(due));
    InputsOne(Tick(v'.clock));
    InputsOne(HandOver(due));
  }

  lemma OthersWait(v: View, v': View, id: int, due: Instant, other: int, c: ReadingCondition)
    requires HandedOver(v, v', id, due) && other != id
    ensures Moves(v, v', other, c, [Tick(v'.clock)]) && Inputs([Tick(v'.clock)]) == []
  {
    hide Moves, Elapsed;
    Waits(v, v', other, c);
  }

  /** A popped hold is handed over. */
  lemma HoldHandedOver(automations: map<int, Automation>, v: View, v': View, id: int, due: Instant)
    requires HandedOver(v, v', id, due)
    ensures EdgesMove(Call(automations, {}, HandsOver(id, due)), v, v')
  {
    hide Moves, HandedOver;
    var call := Call(automations, {}, HandsOver(id, due));
    forall other, c ensures TriggerMoves(call, v, v', other, c) {
      if other == id {
        OneHandedOver(v, v', id, due, c);
        assert ActionsOf(call, id, [Tick(v'.clock), HandOver(due)]);
      } else {
        OthersWait(v, v', id, due, other, c);
        assert ActionsOf(call, other, [Tick(v'.clock)]);
      }
    }
  }

  // ---------- A pop ----------

  lemma {:induction false} PoppedOnce(popped: seq<Popped>, id: int)
    requires forall i, j :: 0 <= i < j < |popped| ==> popped[i].key != popped[j].key
    ensures !IsPopped(popped, HoldKey(id)) ==> PoppedHolds(popped, id) == multiset{}
    ensures forall i ::
              0 <= i < |popped| && popped[i].key == HoldKey(id) ==> PoppedHolds(popped, id) == multiset{popped[i].due}
  {
    if popped != [] {
      PoppedOnce(popped[1..], id);
      assert forall i :: 1 <= i < |popped| ==> popped[i] == popped[1..][i - 1];
    }
  }

  ghost predicate Popping(v: View, v': View) {
    && v.popped == [] && v'.clock >= v.clock && v'.seen == v.seen && v'.edges == v.edges
    && PopsAllDue(v.entries, v'.popped, v'.clock) && v'.entries == LaterThan(v.entries, v'.clock)
  }

  /** A due hold is taken out once, and any other stays. */
  lemma WhatIsPopped(v: View, v': View, id: int)
    requires Popping(v, v')
    ensures if HoldKey(id) in v.entries && v.entries[HoldKey(id)] <= v'.clock then
              HoldKey(id) !in v'.entries && PoppedHolds(v'.popped, id) == multiset{v.entries[HoldKey(id)]}
            else SameAt(v.entries, v'.entries, HoldKey(id)) && PoppedHolds(v'.popped, id) == multiset{}
  {
    PoppedOnce(v'.popped, id);
  }

  lemma PopMoves(v: View, v': View, id: int, c: ReadingCondition)
    requires Popping(v, v') && HoldKey(id) in v.entries && v.entries[HoldKey(id)] <= v'.clock
    ensures Moves(v, v', id, c, [Tick(v'.clock), Pop]) && Inputs([Tick(v'.clock), Pop]) == []
  {
    WhatIsPopped(v, v', id);
    hide PopsAllDue, LaterThan;
    forall s | Shows(v.(clock := v'.clock), id, s) ensures Enabled(s, Pop) && Shows(v', id, Apply(c, s, Pop)) {
      assert PoppedHolds(v.popped, id) == multiset{};
    }
    hide Shows, Enabled, Apply;
    WaitsThen(v, v', id, c, Pop);
    InputsTwo(Tick(v'.clock), Pop);
    InputsOne(Tick(v'.clock));
    InputsOne(Pop);
  }

  lemma EdgesPop(automations: map<int, Automation>, v: View, v': View)
    requires Popping(v, v')
    ensures EdgesMove(Call(automations, {}, Other), v, v')
  {
    hide Moves, PopsAllDue, LaterThan;
    var call := Call(automations, {}, Other);
    forall id, c ensures TriggerMoves(call, v, v', id, c) {
      if HoldKey(id) in v.entries && v.entries[HoldKey(id)] <= v'.clock {
        PopMoves(v, v', id, c);
        assert ActionsOf(call, id, [Tick(v'.clock), Pop]);
      } else {
        WhatIsPopped(v, v', id);
        Waits(v, v', id, c);
        assert ActionsOf(call, id, [Tick(v'.clock)]);
      }
    }
  }

  // ---------- An edit ----------

  /** The edges and holds of the triggers named may be dropped or new, and no others change. */
  ghost predicate RenewedOnly(ids: set<int>, edges: map<int, EdgeState>, edges': map<int, EdgeState>,
                              entries: map<DueKey, Instant>, entries': map<DueKey, Instant>) {
    forall id :: Kept(edges, edges', entries, entries', id) || (id in ids && IsNew(edges', entries', id))
  }

  lemma NoneRenewed(ids: set<int>, edges: map<int, EdgeState>, entries: map<DueKey, Instant>)
    ensures RenewedOnly(ids, edges, edges, entries, entries)
  {
  }

  lemma RenewedMore(ids: set<int>, more: set<int>, edges: map<int, EdgeState>, edges': map<int, EdgeState>,
                    edges'': map<int, EdgeState>,
                    entries: map<DueKey, Instant>, entries': map<DueKey, Instant>, entries'': map<DueKey, Instant>)
    requires RenewedOnly(ids, edges, edges', entries, entries')
             && RenewedOnly(more, edges', edges'', entries', entries'')
    ensures RenewedOnly(ids + more, edges, edges'', entries, entries'')
  {
    forall id
      ensures Kept(edges, edges'', entries, entries'', id) || (id in ids + more && IsNew(edges'', entries'', id))
    {
      assert Kept(edges, edges', entries, entries', id) || IsNew(edges', entries', id);
      assert Kept(edges', edges'', entries', entries'', id) || IsNew(edges'', entries'', id);
    }
  }

  lemma DroppedRenews(edges: map<int, EdgeState>, entries: map<DueKey, Instant>, id: int)
    ensures RenewedOnly({id}, edges, edges - {id}, entries, entries - {TriggerKey(id), HoldKey(id)})
  {
  }

  lemma OneArmed(t: Trigger, edges: map<int, EdgeState>, edges': map<int, EdgeState>, entries: map<DueKey, Instant>,
                 entries': map<DueKey, Instant>)
    requires HoldKey(t.id) !in entries && (!t.kind.OnReading? ==> TriggerKey(t.id) in entries')
    requires edges' == if t.kind.OnReading? then edges[t.id := NEW_EDGE] else edges
    requires entries' == if t.kind.OnReading? then entries else entries[TriggerKey(t.id) := entries'[TriggerKey(t.id)]]
    ensures RenewedOnly({t.id}, edges, edges', entries, entries')
  {
  }

  lemma EdgesRenewed(call: Call, ids: set<int>, v: View, v': View)
    requires RenewedOnly(ids, v.edges, v'.edges, v.entries, v'.entries)
    requires call.request == Other && v'.popped == v.popped && v'.clock >= v.clock && v'.seen == v.seen
    requires forall id :: id in ids && id in v.edges ==> Owned(call.automations, call.edited, id)
    ensures EdgesMove(call, v, v')
  {
    hide Moves;
    forall id, c ensures TriggerMoves(call, v, v', id, c) {
      if Kept(v.edges, v'.edges, v.entries, v'.entries, id) {
        Waits(v, v', id, c);
        assert ActionsOf(call, id, [Tick(v'.clock)]);
      } else {
        var actions := Renewing(id in v.edges, id in v'.edges, v'.clock);
        Renews(v, v', id, c);
        assert ActionsOf(call, id, actions);
      }
    }
  }

  /** The edges renewed are all of triggers the automation had or has now. */
  lemma EditMoves(automations: map<int, Automation>, triggers: map<int, int>, a: Automation, v: View,
                  edges: map<int, EdgeState>, entries: map<DueKey, Instant>, v': View)
    requires IndexOk(automations, triggers) && v.edges.Keys == ReadingIds(Listed(automations))
    requires forall i :: 0 <= i < |a.triggers| && a.triggers[i].id in triggers ==> triggers[a.triggers[i].id] == a.id
    requires RenewedOnly(TriggerIds(automations, a.id), v.edges, edges, v.entries, entries)
    requires RenewedOnly(ArmedIds(a), edges, v'.edges, entries, v'.entries)
    requires v'.popped == v.popped && v'.clock >= v.clock && v'.seen == v.seen
    ensures EdgesMove(Call(automations, {a.id}, Other), v, v')
  {
    hide RenewedOnly, EdgesMove;
    var ids := TriggerIds(automations, a.id) + ArmedIds(a);
    RenewedMore(TriggerIds(automations, a.id), ArmedIds(a), v.edges, edges, v'.edges, v.entries, entries, v'.entries);
    forall id | id in ids && id in v.edges ensures Owned(automations, {a.id}, id) {
      EdgeIsOwned(automations, triggers, id);
      if id !in TriggerIds(automations, a.id) {
        assert triggers[id] == a.id;
      }
    }
    EdgesRenewed(Call(automations, {a.id}, Other), ids, v, v');
  }

  lemma DropMovesEdges(automations: map<int, Automation>, id: int, v: View, v': View)
    requires RenewedOnly(TriggerIds(automations, id), v.edges, v'.edges, v.entries, v'.entries)
    requires v'.popped == v.popped && v'.clock >= v.clock && v'.seen == v.seen
    ensures EdgesMove(Call(automations, {id}, Other), v, v')
  {
    hide RenewedOnly, EdgesMove;
    EdgesRenewed(Call(automations, {id}, Other), TriggerIds(automations, id), v, v');
  }

  // ---------- A reading ----------

  ghost predicate ReadBy(list: seq<Trigger>, reading: Reading, cause: Option<int>, at: Instant, v: View, v': View) {
    && AllSeen(list, reading, cause, at, v.edges, v'.edges, v.entries, v'.entries)
    && v'.popped == v.popped && v.seen <= at == v'.seen && v.clock <= v'.clock && at <= v'.clock
  }

  lemma OneReads(list: seq<Trigger>, i: nat, reading: Reading, cause: Option<int>, at: Instant, v: View, v': View)
    requires ReadBy(list, reading, cause, at, v, v') && i < |list| && list[i].kind.OnReading?
    ensures Moves(v, v', list[i].id, list[i].kind.condition, [Tick(v'.clock), See(reading, cause, at)])
    ensures Inputs([Tick(v'.clock), See(reading, cause, at)]) == [See(reading, cause, at)]
  {
    var (id, c, a) := (list[i].id, list[i].kind.condition, See(reading, cause, at));
    forall s | Shows(v.(clock := v'.clock), id, s) ensures Enabled(s, a) && Shows(v', id, Apply(c, s, a)) {
      hide Observed;
    }
    hide Shows, Enabled, Apply;
    WaitsThen(v, v', id, c, a);
    InputsTwo(Tick(v'.clock), a);
    InputsOne(Tick(v'.clock));
    InputsOne(a);
  }

  lemma UnlistedWaits(list: seq<Trigger>, reading: Reading, cause: Option<int>, at: Instant, v: View, v': View, id: int,
                      c: ReadingCondition)
    requires ReadBy(list, reading, cause, at, v, v') && !IsListed(list, id)
    ensures Moves(v, v', id, c, [Tick(v'.clock)]) && Inputs([Tick(v'.clock)]) == []
  {
    hide Moves;
    Waits(v, v', id, c);
  }

  lemma EdgesRead(automations: map<int, Automation>, list: seq<Trigger>, reading: Reading, cause: Option<int>,
                  at: Instant, v: View, v': View)
    requires ReadBy(list, reading, cause, at, v, v')
    requires forall t :: t in list ==> t in Listed(automations) && t.kind.OnReading?
    ensures EdgesMove(Call(automations, {}, Reads(list, reading, cause, at)), v, v')
  {
    hide Moves, ReadBy, Listed;
    var call := Call(automations, {}, Reads(list, reading, cause, at));
    forall id, c | Means(automations, id, c) ensures TriggerMoves(call, v, v', id, c) {
      if i :| 0 <= i < |list| && list[i].id == id {
        OneReads(list, i, reading, cause, at, v, v');
        assert ActionsOf(call, id, [Tick(v'.clock), See(reading, cause, at)]);
      } else {
        UnlistedWaits(list, reading, cause, at, v, v', id, c);
        assert ActionsOf(call, id, [Tick(v'.clock)]);
      }
    }
  }

  // ---------- Every run of the engine ----------

  /** Any number of operations of one life of the hub, in which the trigger's condition is the one given. */
  ghost predicate Life(views: seq<View>, calls: seq<Call>, id: int, c: ReadingCondition) {
    && |views| == |calls| + 1
    && views[0].edges == map[] && views[0].entries == map[] && views[0].popped == [] && views[0].seen <= views[0].clock
    && forall k ::
         0 <= k < |calls| ==> Means(calls[k].automations, id, c) && EdgesMove(calls[k], views[k], views[k + 1])
  }

  /** What the calls gave the trigger, in order. */
  ghost function AllGiven(calls: seq<Call>, id: int): seq<Action> {
    if calls == [] then [] else AllGiven(calls[..|calls| - 1], id) + Given(calls[|calls| - 1].request, id)
  }

  ghost predicate EditedIn(calls: seq<Call>, id: int) {
    exists k :: 0 <= k < |calls| && Owned(calls[k].automations, calls[k].edited, id)
  }

  /**
   After the first m actions the trigger is as the engine shows it, given what the calls gave it,
   and never dropped unless its automation was edited.
   */
  ghost predicate Traced(view: View, calls: seq<Call>, id: int, states: seq<State>, actions: seq<Action>, m: nat) {
    && m <= |actions| < |states| && Shows(view, id, states[m])
    && Inputs(actions[..m]) == AllGiven(calls, id)
    && (Drop in actions[..m] ==> EditedIn(calls, id))
  }

  ghost predicate AllTraced(views: seq<View>, calls: seq<Call>, id: int, c: ReadingCondition, states: seq<State>,
                            actions: seq<Action>, at: seq<nat>) {
    && History(c, states, actions) && 0 < |at| <= |views| && |at| - 1 <= |calls| && at[|at| - 1] == |actions|
    && (forall j, k :: 0 <= j <= k < |at| ==> at[j] <= at[k])
    && forall k :: 0 <= k < |at| ==> Traced(views[k], calls[..k], id, states, actions, at[k])
  }

  lemma {:induction false} HistoryMore(c: ReadingCondition, states: seq<State>, actions: seq<Action>, more: seq<Action>)
    returns (states': seq<State>)
    requires History(c, states, actions) && Perform(c, states[|actions|], more).Some?
    ensures History(c, states', actions + more) && states == states'[..|states|]
    ensures Perform(c, states[|actions|], more).value == states'[|actions + more|]
    decreases |more|
  {
    hide Enabled, Apply, Init;
    if more == [] {
      states' := states;
      assert actions + more == actions;
    } else {
      var (next, longer) := (states + [Apply(c, states[|actions|], more[0])], actions + [more[0]]);
      assert History(c, next, longer) by {
        forall i | 0 <= i < |longer|
          ensures Enabled(next[i], longer[i]) && next[i + 1] == Apply(c, next[i], longer[i])
        {
          assert i < |actions| ==> Enabled(states[i], actions[i]) && states[i + 1] == Apply(c, states[i], actions[i]);
        }
      }
      states' := HistoryMore(c, next, longer, more[1..]);
      assert longer + more[1..] == actions + more;
    }
  }

  lemma StillTraced(view: View, calls: seq<Call>, id: int, states: seq<State>, states': seq<State>,
                    actions: seq<Action>, more: seq<Action>, m: nat)
    requires Traced(view, calls, id, states, actions, m) && |states| == |actions| + 1
    requires |states'| == |actions + more| + 1 && states == states'[..|states|]
    ensures Traced(view, calls, id, states', actions + more, m)
  {
    hide Shows;
    assert (actions + more)[..m] == actions[..m];
  }

  lemma TracedNext(view: View, view': View, calls: seq<Call>, call: Call, id: int, states: seq<State>,
                   states': seq<State>,
                   actions: seq<Action>, more: seq<Action>)
    requires Traced(view, calls, id, states, actions, |actions|) && ActionsOf(call, id, more)
    requires |states'| == |actions + more| + 1 && Shows(view', id, states'[|actions + more|])
    ensures Traced(view', calls + [call], id, states', actions + more, |actions + more|)
  {
    hide Shows, Owned, Given;
    assert actions[..|actions|] == actions && (actions + more)[..|actions + more|] == actions + more;
    InputsMore(actions, more);
    assert (calls + [call])[..|calls|] == calls;
    if Drop in more {
      assert Owned((calls + [call])[|calls|].automations, (calls + [call])[|calls|].edited, id);
    } else if Drop in actions {
      var k :| 0 <= k < |calls| && Owned(calls[k].automations, calls[k].edited, id);
      assert (calls + [call])[k] == calls[k];
    }
  }

  lemma TracedFirst(views: seq<View>, calls: seq<Call>, id: int, c: ReadingCondition) returns (states: seq<State>)
    requires Life(views, calls, id, c)
    ensures AllTraced(views, calls, id, c, states, [], [0])
  {
    states := [State(false, NEW_EDGE, None, multiset{}, views[0].clock, views[0].seen, [])];
    assert Traced(views[0], calls[..0], id, states, [], 0);
  }

  /**
   Whatever the engine is asked to do, each reading trigger goes through a history of its
   own: given the readings and due holds the engine gave it and no others, in the same
   order, and dropped only when its automation is edited. So all that holds of such
   histories holds of the engine.
   */
  lemma EngineRefinesEdges(views: seq<View>, calls: seq<Call>, id: int, c: ReadingCondition)
    requires Life(views, calls, id, c)
    ensures exists states, actions, at :: AllTraced(views, calls, id, c, states, actions, at) && |at| == |views|
  {
    hide AllTraced, EdgesMove, Means;
    var states, actions, at := TracedUpTo(views, calls, id, c, |calls|);
  }

  lemma {:induction false} TracedUpTo(views: seq<View>, calls: seq<Call>, id: int, c: ReadingCondition, n: nat)
    returns (states: seq<State>, actions: seq<Action>, at: seq<nat>)
    requires Life(views, calls, id, c) && n < |views|
    ensures AllTraced(views, calls, id, c, states, actions, at) && |at| == n + 1
  {
    hide Traced, History, Moves, ActionsOf;
    if n == 0 {
      states := TracedFirst(views, calls, id, c);
      actions, at := [], [0];
    } else {
      var states0, actions0, at0 := TracedUpTo(views, calls, id, c, n - 1);
      assert TriggerMoves(calls[n - 1], views[n - 1], views[n], id, c);
      states, actions, at := AllTracedMore(views, calls, id, c, states0, actions0, at0);
    }
  }

  lemma AllTracedMore(views: seq<View>, calls: seq<Call>, id: int, c: ReadingCondition, states0: seq<State>,
                      actions0: seq<Action>, at0: seq<nat>)
    returns (states: seq<State>, actions: seq<Action>, at: seq<nat>)
    requires AllTraced(views, calls, id, c, states0, actions0, at0) && |at0| < |views| == |calls| + 1
    requires TriggerMoves(calls[|at0| - 1], views[|at0| - 1], views[|at0|], id, c)
    ensures AllTraced(views, calls, id, c, states, actions, at) && |at| == |at0| + 1
  {
    hide Shows, Given, AllGiven, EditedIn, Inputs, Perform, Enabled, Apply, ActionsOf;
    var n := |at0| - 1;
    var more :| Moves(views[n], views[n + 1], id, c, more) && ActionsOf(calls[n], id, more);
    assert Traced(views[n], calls[..n], id, states0, actions0, |actions0|);
    states := HistoryMore(c, states0, actions0, more);
    actions, at := actions0 + more, at0 + [|actions0 + more|];
    TracedNext(views[n], views[n + 1], calls[..n], calls[n], id, states0, states, actions0, more);
    assert calls[..n] + [calls[n]] == calls[..n + 1];
    forall k | 0 <= k < |at0| ensures Traced(views[k], calls[..k], id, states, actions, at[k]) {
      StillTraced(views[k], calls[..k], id, states0, states, actions0, more, at0[k]);
    }
    assert forall k :: 0 <= k < |at0| ==> at0[k] <= |actions0|;
  }

  // ---------- What that says of the engine's holds ----------

  /** The readings among what a trigger is given, and those in its log. */
  function Readings(actions: seq<Action>): seq<Action> {
    if actions == [] then []
    else Readings(actions[..|actions| - 1]) + if actions[|actions| - 1].See? then [actions[|actions| - 1]] else []
  }

  function Logged(log: seq<Event>): seq<Action> {
    if log == [] then []
    else
      var e := log[|log| - 1];
      Logged(log[..|log| - 1]) + if e.Saw? then [See(e.reading, e.cause, e.at)] else []
  }

  lemma {:induction false} ReadingsMore(first: seq<Action>, rest: seq<Action>)
    ensures Readings(first + rest) == Readings(first) + Readings(rest)
  {
    if rest == [] {
      assert first + rest == first;
    } else {
      assert (first + rest)[..|first + rest| - 1] == first + rest[..|rest| - 1];
      ReadingsMore(first, rest[..|rest| - 1]);
    }
  }

  lemma {:induction false} LoggedMore(first: seq<Event>, rest: seq<Event>)
    ensures Logged(first + rest) == Logged(first) + Logged(rest)
  {
    if rest == [] {
      assert first + rest == first;
    } else {
      assert (first + rest)[..|first + rest| - 1] == first + rest[..|rest| - 1];
      LoggedMore(first, rest[..|rest| - 1]);
    }
  }

  lemma {:induction false} InputsHaveReadings(actions: seq<Action>)
    ensures Readings(Inputs(actions)) == Readings(actions)
  {
    if actions != [] {
      var (head, rest) := ([actions[0]], actions[1..]);
      assert actions == head + rest;
      InputsHaveReadings(rest);
      InputsOne(actions[0]);
      InputsMore(head, rest);
      ReadingsMore(Inputs(head), Inputs(rest));
      ReadingsMore(head, rest);
      assert Readings(Inputs(head)) == Readings(head) by {
        assert Readings([]) == [] && head[..0] == [];
      }
    }
  }

  lemma {:induction false} ReadingsAreLogged(c: ReadingCondition, states: seq<State>, actions: seq<Action>, k: nat)
    requires History(c, states, actions) && k < |states|
    ensures Logged(states[k].log) == Readings(actions[..k])
  {
    if k > 0 {
      ReadingsAreLogged(c, states, actions, k - 1);
      var (s, a) := (states[k - 1], actions[k - 1]);
      assert actions[..k] == actions[..k - 1] + [a] && states[k] == Apply(c, s, a);
      assert actions[..k][..k - 1] == actions[..k - 1];
      LogStep(c, s, a);
    }
  }

  lemma LogStep(c: ReadingCondition, s: State, a: Action)
    requires Enabled(s, a)
    ensures Logged(Apply(c, s, a).log) == Logged(s.log) + if a.See? then [a] else []
  {
    var log' := Apply(c, s, a).log;
    if log' != s.log {
      assert log'[..|log'| - 1] == s.log;
    }
  }

  /** A reading that met the condition, and which no usable one since did not meet. */
  ghost predicate Unbroken(c: ReadingCondition, given: seq<Action>, before: seq<Action>, first: Action,
                           after: seq<Action>) {
    given == before + [first] + after && first.See? && Meets(c, first.reading) && NoneFails(c, after)
  }

  ghost predicate NoneFails(c: ReadingCondition, given: seq<Action>) {
    forall i :: 0 <= i < |given| && given[i].See? && Test(c, given[i].reading).ok ==> Meets(c, given[i].reading)
  }

  lemma {:induction false} LoggedMeet(c: ReadingCondition, log: seq<Event>)
    requires forall i :: 0 <= i < |log| && Usable(c, log[i]) ==> Meets(c, log[i].reading)
    ensures NoneFails(c, Logged(log))
  {
    if log != [] {
      var e := log[|log| - 1];
      LoggedMeet(c, log[..|log| - 1]);
      assert e.Saw? && Test(c, e.reading).ok ==> Usable(c, e);
      hide Test;
    }
  }

  lemma HeldIsUnbroken(c: ReadingCondition, log: seq<Event>, i: nat)
    requires HeldSince(c, log, i)
    ensures Unbroken(c, Logged(log), Logged(log[..i]), See(log[i].reading, log[i].cause, log[i].at),
                     Logged(log[i + 1..]))
  {
    var (before, after) := (log[..i], log[i + 1..]);
    assert log == before + [log[i]] + after;
    LoggedMore(before + [log[i]], after);
    LoggedMore(before, [log[i]]);
    assert Logged([]) == [] && [log[i]][..0] == [];
    assert Logged([log[i]]) == [See(log[i].reading, log[i].cause, log[i].at)];
    assert forall j :: 0 <= j < |after| ==> after[j] == log[i + 1 + j];
    LoggedMeet(c, after);
  }

  /**
   While an edge of the engine holds, it does so for a reading the trigger was given, which
   met its condition, and every usable reading it was given since met it too. The hold is
   for its full length from that reading on, with that reading's cause, and its end is with
   the scheduler or on its way, and then it has come.
   */
  lemma EngineHoldsInFull(views: seq<View>, calls: seq<Call>, id: int, c: ReadingCondition, k: nat)
    requires Life(views, calls, id, c) && k < |views|
    requires id in views[k].edges && views[k].edges[id].holding
    ensures var edge := views[k].edges[id];
            exists before, first, after ::
              && Unbroken(c, Readings(AllGiven(calls[..k], id)), before, first, after)
              && first.at + c.hold == edge.holdUntil && first.cause == edge.holdCause
    ensures var (v, due) := (views[k], views[k].edges[id].holdUntil);
            EntryOf(v.entries, id) == Some(due) || (due in PoppedHolds(v.popped, id) && due <= v.clock)
  {
    var states, actions, at := TracedUpTo(views, calls, id, c, k);
    var m := at[k];
    assert Traced(views[k], calls[..k], id, states, actions, m);
    AlwaysInv(c, states, actions, m);
    var log := states[m].log;
    var i: nat :| HoldBegan(c, states[m], i);
    HeldIsUnbroken(c, log, i);
    ReadingsAreLogged(c, states, actions, m);
    InputsHaveReadings(actions[..m]);
  }
}
