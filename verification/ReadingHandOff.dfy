/** The consumer and the worker at once, one channel operation or one critical section at a time. */
module ReadingHandOff {
  import opened Automations
  import opened ReadingQueue

  /** The consumer between two steps. A rejected reading found the buffer full, or the overflow in use. */
  datatype Consumer = Unlocked | Locked | Rejected

  /**
   The worker. Taking has found the buffer empty and is about to lock; since counts the readings
   offered meanwhile.
   */
  datatype Worker = Waiting | Observing | Taking(since: nat) | Draining

  /** Readings are numbered in the order they are consumed. */
  datatype State = State(
    consumed: seq<Series>,
    q: Queue<int>,
    hand: seq<(Series, int)>,
    observed: seq<(Series, int)>,
    consumer: Consumer,
    worker: Worker)

  datatype Action = Lock | Offer(s: Series) | Insert | Unlock | Receive | Observe | Test | Take | Finish

  ghost predicate Enabled(s: State, a: Action) {
    match a
    case Lock => s.consumer.Unlocked?
    case Offer(_) => s.consumer.Locked?
    case Insert => s.consumer.Rejected? && s.consumed != []
    case Unlock => s.consumer.Locked?
    case Receive => s.worker.Waiting? && s.q.buffer != []
    case Observe => s.hand != []
    case Test => s.worker.Observing? && s.hand == []
    case Take => s.worker.Taking? && s.consumer.Unlocked? && QueueOk(s.q)
    case Finish => s.worker.Draining? && s.hand == []
  }

  function Apply(capacity: nat, s: State, a: Action): State
    requires Enabled(s, a)
  {
    match a
    case Lock => s.(consumer := Locked)
    case Offer(series) =>
      var worker := if s.worker.Taking? then Taking(s.worker.since + 1) else s.worker;
      if CanSend(s.q, capacity) then
        s.(consumed := s.consumed + [series], q := Sent(s.q, series, |s.consumed|), worker := worker)
      else s.(consumed := s.consumed + [series], consumer := Rejected, worker := worker)
    case Insert => s.(q := Inserted(s.q, s.consumed[|s.consumed| - 1], |s.consumed| - 1), consumer := Locked)
    case Unlock => s.(consumer := Unlocked)
    case Receive => s.(hand := [s.q.buffer[0]], q := s.q.(buffer := s.q.buffer[1..]), worker := Observing)
    case Observe => s.(observed := s.observed + [s.hand[0]], hand := s.hand[1..])
    case Test => s.(worker := if s.q.buffer == [] then Taking(0) else Waiting)
    case Take => s.(hand := Overflow(s.q), q := Emptied(s.q), worker := Draining)
    case Finish => s.(worker := Waiting)
  }

  // ---------- The invariant ----------

  /** How often a reading is in a list. */
  ghost function Times(list: seq<(Series, int)>, n: int): nat {
    if list == [] then 0 else Times(list[..|list| - 1], n) + if list[|list| - 1].1 == n then 1 else 0
  }

  /**
   In how many places a reading is: observed, in hand, buffered, in the overflow, dropped, or on its
   way into the overflow.
   */
  ghost function Places(s: State, n: int): nat
    requires QueueOk(s.q)
  {
    Times(s.observed, n) + Times(s.hand, n) + Times(s.q.buffer, n) + Times(Overflow(s.q), n) + Times(s.q.dropped, n)
    + if s.consumer.Rejected? && n == |s.consumed| - 1 then 1 else 0
  }

  /** A dropped reading was followed by another of its series. */
  ghost predicate Replaced(consumed: seq<Series>, n: int) {
    0 <= n < |consumed| && exists later :: n < later < |consumed| && consumed[later] == consumed[n]
  }

  /** The overflow holds, for each of its series, a reading of it numbered below the limit. */
  ghost predicate LabelledBelow(consumed: seq<Series>, limit: int, overflow: map<Series, int>) {
    && limit <= |consumed|
    && forall series :: series in overflow ==> 0 <= overflow[series] < limit && consumed[overflow[series]] == series
  }

  ghost predicate AllReplaced(consumed: seq<Series>, dropped: seq<(Series, int)>) {
    forall i :: 0 <= i < |dropped| ==> Replaced(consumed, dropped[i].1)
  }

  function Settled(s: State): int {
    if s.consumer.Rejected? then |s.consumed| - 1 else |s.consumed|
  }

  ghost predicate OverflowOk(s: State) {
    && QueueOk(s.q)
    && (s.consumer.Rejected? ==> s.consumed != [])
    && LabelledBelow(s.consumed, Settled(s), s.q.overflow)
    && AllReplaced(s.consumed, s.q.dropped)
  }

  ghost predicate InUse(s: State) {
    s.q.order != [] || s.consumer.Rejected?
  }

  /** While the overflow is in use the worker has a reason to come back to it. */
  ghost predicate Awake(s: State) {
    && (InUse(s) ==> s.q.buffer != [] || s.worker.Observing? || s.worker.Taking?)
    && (s.worker.Waiting? || s.worker.Taking? ==> s.hand == [])
  }

  /**
   Between finding the buffer empty and taking the overflow, only more readings than the buffer
   holds can be in both.
   */
  ghost predicate TakingOk(capacity: nat, s: State) {
    s.worker.Taking? ==>
      || (!InUse(s) && |s.q.buffer| == s.worker.since)
      || (InUse(s) && s.q.buffer == [])
      || s.worker.since > capacity
  }

  ghost predicate Conserved(s: State)
    requires QueueOk(s.q)
  {
    forall n :: Places(s, n) == if 0 <= n < |s.consumed| then 1 else 0
  }

  /** What the worker has observed and will observe next, in that order. */
  ghost function Line(s: State): seq<(Series, int)> {
    s.observed + s.hand + s.q.buffer
  }

  /** Every pair in a list names a reading that was consumed, and the series it was consumed for. */
  ghost predicate Named(consumed: seq<Series>, list: seq<(Series, int)>) {
    forall i :: 0 <= i < |list| ==> 0 <= list[i].1 < |consumed| && consumed[list[i].1] == list[i].0
  }

  ghost predicate Inv(capacity: nat, s: State) {
    OverflowOk(s) && Conserved(s) && Named(s.consumed, Line(s)) && Awake(s) && TakingOk(capacity, s)
    && |s.q.buffer| <= capacity
  }

  // ---------- Every step keeps it ----------

  lemma TimesMore(list: seq<(Series, int)>, last: (Series, int), n: int)
    ensures Times(list + [last], n) == Times(list, n) + if last.1 == n then 1 else 0
  {
    assert (list + [last])[..|list|] == list;
  }

  lemma {:induction false} TimesFirst(list: seq<(Series, int)>, n: int)
    requires list != []
    ensures Times(list, n) == (if list[0].1 == n then 1 else 0) + Times(list[1..], n)
  {
    if |list| > 1 {
      var (front, last) := (list[..|list| - 1], list[|list| - 1]);
      TimesFirst(front, n);
      assert list[1..] == front[1..] + [last];
      TimesMore(front[1..], last, n);
    }
  }

  lemma {:induction false} TimesChanged(list: seq<(Series, int)>, i: nat, other: (Series, int), n: int)
    requires i < |list|
    ensures Times(list[i := other], n) ==
              Times(list, n) - (if list[i].1 == n then 1 else 0) + if other.1 == n then 1 else 0
  {
    var (changed, last) := (list[i := other], |list| - 1);
    if i == last {
      assert changed[..last] == list[..last];
    } else {
      assert changed[..last] == list[..last][i := other];
      TimesChanged(list[..last], i, other, n);
    }
  }

  /** The overflow gains a reading, or has one replaced. */
  lemma InsertTimes(q: Queue<int>, s: Series, r: int, n: int)
    requires QueueOk(q) && QueueOk(Inserted(q, s, r))
    ensures var q' := Inserted(q, s, r);
            Times(Overflow(q'), n) + Times(q'.dropped, n) ==
              Times(Overflow(q), n) + Times(q.dropped, n) + if r == n then 1 else 0
  {
    hide Times;
    var q' := Inserted(q, s, r);
    if s in q.overflow {
      var i :| 0 <= i < |q.order| && q.order[i] == s;
      TimesChanged(Overflow(q), i, (s, r), n);
      assert Overflow(q') == Overflow(q)[i := (s, r)];
      TimesMore(q.dropped, (s, q.overflow[s]), n);
    } else {
      assert Overflow(q') == Overflow(q) + [(s, r)];
      TimesMore(Overflow(q), (s, r), n);
    }
  }

  lemma OfferMoves(capacity: nat, s: State, series: Series, n: int)
    requires QueueOk(s.q) && Enabled(s, Offer(series))
    ensures Places(Apply(capacity, s, Offer(series)), n) == Places(s, n) + if n == |s.consumed| then 1 else 0
  {
    hide Times;
    var s' := Apply(capacity, s, Offer(series));
    assert Overflow(s'.q) == Overflow(s.q);
    TimesMore(s.q.buffer, (series, |s.consumed|), n);
  }

  lemma InsertMoves(capacity: nat, s: State, n: int)
    requires QueueOk(s.q) && Enabled(s, Insert) && QueueOk(Apply(capacity, s, Insert).q)
    ensures Places(Apply(capacity, s, Insert), n) == Places(s, n)
  {
    hide Times, Overflow;
    InsertTimes(s.q, s.consumed[|s.consumed| - 1], |s.consumed| - 1, n);
  }

  lemma ReceiveMoves(capacity: nat, s: State, n: int)
    requires QueueOk(s.q) && Enabled(s, Receive) && s.hand == []
    ensures Places(Apply(capacity, s, Receive), n) == Places(s, n)
  {
    TimesFirst(s.q.buffer, n);
    TimesMore([], s.q.buffer[0], n);
    assert [] + [s.q.buffer[0]] == [s.q.buffer[0]];
    assert Overflow(Apply(capacity, s, Receive).q) == Overflow(s.q);
    hide Overflow;
  }

  lemma ObserveMoves(capacity: nat, s: State, n: int)
    requires QueueOk(s.q) && Enabled(s, Observe)
    ensures Places(Apply(capacity, s, Observe), n) == Places(s, n)
  {
    hide Overflow, Times;
    TimesFirst(s.hand, n);
    TimesMore(s.observed, s.hand[0], n);
  }

  /** Whatever else is done moves readings along. */
  lemma OthersMove(capacity: nat, s: State, a: Action, n: int)
    requires QueueOk(s.q) && Enabled(s, a) && !a.Offer? && QueueOk(Apply(capacity, s, a).q)
    requires s.worker.Waiting? || s.worker.Taking? ==> s.hand == []
    ensures Places(Apply(capacity, s, a), n) == Places(s, n)
  {
    match a {
      case Insert => InsertMoves(capacity, s, n);
      case Receive => ReceiveMoves(capacity, s, n);
      case Observe => ObserveMoves(capacity, s, n);
      case _ =>
    }
  }

  lemma StepConserves(capacity: nat, s: State, a: Action)
    requires OverflowOk(s) && Conserved(s) && Awake(s) && Enabled(s, a) && QueueOk(Apply(capacity, s, a).q)
    ensures Conserved(Apply(capacity, s, a))
  {
    hide Places;
    forall n ensures Places(Apply(capacity, s, a), n) == if 0 <= n < |Apply(capacity, s, a).consumed| then 1 else 0 {
      if a.Offer? {
        OfferMoves(capacity, s, a.s, n);
      } else {
        OthersMove(capacity, s, a, n);
      }
    }
  }

  lemma AllReplacedStill(consumed: seq<Series>, more: seq<Series>, dropped: seq<(Series, int)>)
    requires AllReplaced(consumed, dropped) && consumed <= more
    ensures AllReplaced(more, dropped)
  {
    forall i | 0 <= i < |dropped| ensures Replaced(more, dropped[i].1) {
      assert Replaced(consumed, dropped[i].1);
      var later :| dropped[i].1 < later < |consumed| && consumed[later] == consumed[dropped[i].1];
      assert more[later] == more[dropped[i].1];
    }
  }

  lemma InsertLabelled(consumed: seq<Series>, n: nat, overflow: map<Series, int>)
    requires n < |consumed| && LabelledBelow(consumed, n, overflow)
    ensures LabelledBelow(consumed, n + 1, overflow[consumed[n] := n])
  {
  }

  lemma InsertReplaces(consumed: seq<Series>, n: nat, overflow: map<Series, int>, dropped: seq<(Series, int)>)
    requires n < |consumed| && LabelledBelow(consumed, n, overflow) && AllReplaced(consumed, dropped)
    ensures consumed[n] in overflow ==> AllReplaced(consumed, dropped + [(consumed[n], overflow[consumed[n]])])
  {
    if consumed[n] in overflow {
      assert Replaced(consumed, overflow[consumed[n]]);
    }
    hide Replaced;
  }

  lemma InsertOverflow(capacity: nat, s: State)
    requires OverflowOk(s) && Enabled(s, Insert)
    ensures OverflowOk(Apply(capacity, s, Insert))
  {
    hide QueueOk, LabelledBelow, AllReplaced;
    var n := |s.consumed| - 1;
    InsertedOk(s.q, s.consumed[n], n);
    InsertLabelled(s.consumed, n, s.q.overflow);
    InsertReplaces(s.consumed, n, s.q.overflow, s.q.dropped);
  }

  lemma StepOverflow(capacity: nat, s: State, a: Action)
    requires OverflowOk(s) && Enabled(s, a)
    ensures OverflowOk(Apply(capacity, s, a))
  {
    if a.Insert? {
      InsertOverflow(capacity, s);
    } else {
      AllReplacedStill(s.consumed, Apply(capacity, s, a).consumed, s.q.dropped);
      hide AllReplaced;
    }
  }

  lemma StepAwake(capacity: nat, s: State, a: Action)
    requires capacity > 0 && QueueOk(s.q) && Awake(s) && TakingOk(capacity, s) && |s.q.buffer| <= capacity
             && Enabled(s, a)
    ensures var s' := Apply(capacity, s, a); Awake(s') && TakingOk(capacity, s') && |s'.q.buffer| <= capacity
  {
    hide Overflow;
  }

  lemma NamedStill(consumed: seq<Series>, more: seq<Series>, front: seq<(Series, int)>, middle: seq<(Series, int)>,
                   rest: seq<(Series, int)>)
    requires consumed <= more && Named(consumed, front + rest) && Named(more, middle)
    ensures Named(more, front + middle + rest)
  {
    var (list, wide) := (front + rest, front + middle + rest);
    forall i | 0 <= i < |wide| ensures 0 <= wide[i].1 < |more| && more[wide[i].1] == wide[i].0 {
      if i < |front| {
        assert wide[i] == list[i];
      } else if i < |front| + |middle| {
        assert wide[i] == middle[i - |front|];
      } else {
        assert wide[i] == list[i - |middle|];
      }
    }
  }

  lemma OverflowNamed(s: State)
    requires OverflowOk(s)
    ensures Named(s.consumed, Overflow(s.q))
  {
  }

  lemma OfferNames(capacity: nat, s: State, series: Series)
    requires Named(s.consumed, Line(s)) && Enabled(s, Offer(series))
    ensures var s' := Apply(capacity, s, Offer(series)); Named(s'.consumed, Line(s'))
  {
    var s' := Apply(capacity, s, Offer(series));
    var sent := if CanSend(s.q, capacity) then [(series, |s.consumed|)] else [];
    assert Line(s) + [] == Line(s) && Line(s') == Line(s) + sent + [];
    NamedStill(s.consumed, s'.consumed, Line(s), sent, []);
  }

  lemma StepNames(capacity: nat, s: State, a: Action)
    requires OverflowOk(s) && Awake(s) && Named(s.consumed, Line(s)) && Enabled(s, a)
    ensures var s' := Apply(capacity, s, a); Named(s'.consumed, Line(s'))
  {
    hide Named, OverflowOk;
    match a {
      case Take =>
        OverflowNamed(s);
        assert Line(s) == s.observed + s.q.buffer;
        NamedStill(s.consumed, s.consumed, s.observed, Overflow(s.q), s.q.buffer);
      case Offer(series) => OfferNames(capacity, s, series);
      case _ =>
        assert Line(Apply(capacity, s, a)) == Line(s);
    }
  }

  lemma StepKeeps(capacity: nat, s: State, a: Action)
    requires capacity > 0 && Inv(capacity, s) && Enabled(s, a)
    ensures Inv(capacity, Apply(capacity, s, a))
  {
    hide Conserved, Awake, TakingOk, Named;
    StepNames(capacity, s, a);
    StepOverflow(capacity, s, a);
    StepConserves(capacity, s, a);
    StepAwake(capacity, s, a);
  }

  // ---------- Order ----------

  /** Readings of one series are in the order they were consumed in. */
  ghost predicate Ascending(list: seq<(Series, int)>) {
    forall i, j :: 0 <= i < j < |list| && list[i].0 == list[j].0 ==> list[i].1 < list[j].1
  }

  ghost predicate OverflowLast(s: State) {
    forall i :: 0 <= i < |Line(s)| ==>
      && Line(s)[i].1 < Settled(s)
      && (Line(s)[i].0 in s.q.overflow ==> Line(s)[i].1 < s.q.overflow[Line(s)[i].0])
  }

  ghost predicate InOrder(s: State) {
    Ascending(Line(s)) && OverflowLast(s)
  }

  /** No series has readings in the buffer as well as in the overflow. */
  ghost predicate Apart(q: Queue<int>) {
    forall i :: 0 <= i < |q.buffer| ==> q.buffer[i].0 !in q.overflow
  }

  /** A list put in between, of other series than what follows it and later than what comes before. */
  lemma PutBetween(before: seq<(Series, int)>, list: seq<(Series, int)>, after: seq<(Series, int)>)
    requires Ascending(before + after) && Ascending(list)
    requires forall i, j :: 0 <= i < |before| && 0 <= j < |list| && before[i].0 == list[j].0 ==> before[i].1 < list[j].1
    requires forall i, j :: 0 <= i < |list| && 0 <= j < |after| ==> list[i].0 != after[j].0
    ensures Ascending(before + list + after)
  {
    var (n, m, direct, line) := (|before|, |list|, before + after, before + list + after);
    forall i, j | 0 <= i < j < |line| && line[i].0 == line[j].0 ensures line[i].1 < line[j].1 {
      if j < n {
        assert line[i] == direct[i] && line[j] == direct[j];
      } else if j < n + m {
        assert line[j] == list[j - n] && line[i] == if i < n then before[i] else list[i - n];
      } else {
        assert line[j] == direct[j - m] == after[j - n - m];
        assert i < n ==> line[i] == direct[i];
        assert n + m <= i ==> line[i] == direct[i - m];
      }
    }
  }

  lemma TakeInOrder(capacity: nat, s: State)
    requires OverflowOk(s) && Awake(s) && InOrder(s) && Enabled(s, Take) && Apart(s.q)
    ensures InOrder(Apply(capacity, s, Take))
  {
    var s' := Apply(capacity, s, Take);
    var taken := Overflow(s.q);
    assert Line(s) == s.observed + s.q.buffer;
    assert forall i :: 0 <= i < |s.observed| ==> Line(s)[i] == s.observed[i];
    assert forall i :: 0 <= i < |s.q.buffer| ==> Line(s)[|s.observed| + i] == s.q.buffer[i];
    PutBetween(s.observed, taken, s.q.buffer);
    var line := Line(s');
    assert line == s.observed + taken + s.q.buffer;
  }

  lemma StepInOrder(capacity: nat, s: State, a: Action)
    requires OverflowOk(s) && Awake(s) && InOrder(s) && Enabled(s, a)
    requires a.Take? ==> Apart(s.q)
    ensures InOrder(Apply(capacity, s, a))
  {
    var s' := Apply(capacity, s, a);
    match a {
      case Take => TakeInOrder(capacity, s);
      case Offer(series) =>
        if CanSend(s.q, capacity) {
          assert Line(s') == Line(s) + [(series, |s.consumed|)];
        } else {
          assert Line(s') == Line(s);
        }
      case _ =>
        assert Line(s') == Line(s);
    }
  }

  /** Taking the overflow while a series is in both puts a newer reading before an older one. */
  lemma TakeOutOfOrder(capacity: nat, s: State)
    requires OverflowOk(s) && Awake(s) && InOrder(s) && Enabled(s, Take) && !Apart(s.q)
    ensures !Ascending(Line(Apply(capacity, s, Take)))
  {
    var s' := Apply(capacity, s, Take);
    var j :| 0 <= j < |s.q.buffer| && s.q.buffer[j].0 in s.q.overflow;
    var series := s.q.buffer[j].0;
    var i :| 0 <= i < |s.q.order| && s.q.order[i] == series;
    var n := |s.observed|;
    assert Line(s)[n + j] == s.q.buffer[j];
    assert Line(s')[n + i] == (series, s.q.overflow[series]);
    assert Line(s')[n + |s.q.order| + j] == s.q.buffer[j];
  }

  /** Readings put in between leave two out of order as they are. */
  lemma OutOfOrderWidens(front: seq<(Series, int)>, middle: seq<(Series, int)>, rest: seq<(Series, int)>)
    requires !Ascending(front + rest)
    ensures !Ascending(front + middle + rest)
  {
    var (list, wide) := (front + rest, front + middle + rest);
    var i, j :| 0 <= i < j < |list| && list[i].0 == list[j].0 && list[i].1 >= list[j].1;
    var (n, m) := (|front|, |middle|);
    var (i', j') := (if i < n then i else i + m, if j < n then j else j + m);
    assert wide[i'] == list[i] && wide[j'] == list[j];
  }

  /** Nothing the worker or the consumer does afterwards puts them right. */
  lemma StaysOutOfOrder(capacity: nat, s: State, a: Action)
    requires Awake(s) && Enabled(s, a) && !Ascending(Line(s))
    ensures !Ascending(Line(Apply(capacity, s, a)))
  {
    hide Ascending;
    var s' := Apply(capacity, s, a);
    match a {
      case Take =>
        assert Line(s) == s.observed + s.q.buffer;
        OutOfOrderWidens(s.observed, s'.hand, s.q.buffer);
      case Offer(series) =>
        if CanSend(s.q, capacity) {
          assert Line(s) + [] == Line(s);
          OutOfOrderWidens(Line(s), [(series, |s.consumed|)], []);
          assert Line(s') == Line(s) + [(series, |s.consumed|)] + [];
        } else {
          assert Line(s') == Line(s);
        }
      case _ =>
        assert Line(s') == Line(s);
    }
  }

  // ---------- Every history ----------

  ghost predicate Init(s: State) {
    s == State([], Queue([], map[], [], []), [], [], Unlocked, Waiting)
  }

  ghost predicate History(capacity: nat, states: seq<State>, actions: seq<Action>) {
    && capacity > 0 && |states| == |actions| + 1
    && Init(states[0])
    && forall i ::
         0 <= i < |actions| ==>
           Enabled(states[i], actions[i]) && states[i + 1] == Apply(capacity, states[i], actions[i])
  }

  lemma {:induction false} AlwaysInv(capacity: nat, states: seq<State>, actions: seq<Action>, k: nat)
    requires History(capacity, states, actions) && k < |states|
    ensures Inv(capacity, states[k])
  {
    if k > 0 {
      AlwaysInv(capacity, states, actions, k - 1);
      StepKeeps(capacity, states[k - 1], actions[k - 1]);
    }
  }

  /**
   Every reading consumed is in exactly one place, and only a reading replaced by a newer one of its
   series is dropped.
   */
  lemma NothingLost(capacity: nat, states: seq<State>, actions: seq<Action>, k: nat, n: nat)
    requires History(capacity, states, actions) && k < |states| && n < |states[k].consumed|
    ensures var s := states[k]; QueueOk(s.q) && Places(s, n) == 1
    ensures var s := states[k];
            (forall later :: n < later < |s.consumed| ==> s.consumed[later] != s.consumed[n]) ==>
              Times(s.q.dropped, n) == 0
  {
    AlwaysInv(capacity, states, actions, k);
    var s := states[k];
    if Times(s.q.dropped, n) > 0 {
      var i := TimesAt(s.q.dropped, n);
      assert Replaced(s.consumed, s.q.dropped[i].1);
    }
  }

  lemma {:induction false} TimesAt(list: seq<(Series, int)>, n: int) returns (i: nat)
    requires Times(list, n) > 0
    ensures i < |list| && list[i].1 == n
  {
    i := |list| - 1;
    if list[i].1 != n {
      i := TimesAt(list[..i], n);
    }
  }

  /** A worker waiting on an empty buffer leaves nothing in the overflow. */
  lemma NoneForgotten(capacity: nat, states: seq<State>, actions: seq<Action>, k: nat)
    requires History(capacity, states, actions) && k < |states|
    requires states[k].worker.Waiting? && states[k].q.buffer == []
    ensures states[k].q.overflow == map[] && !states[k].consumer.Rejected?
  {
    AlwaysInv(capacity, states, actions, k);
  }

  /** Up to a moment, the overflow has only been taken while it shared no series with the buffer. */
  ghost predicate TakenApart(states: seq<State>, actions: seq<Action>, k: nat)
    requires |states| == |actions| + 1 && k < |states|
  {
    forall i :: 0 <= i < k && actions[i].Take? ==> Apart(states[i].q)
  }

  lemma {:induction false} InOrderWhileApart(capacity: nat, states: seq<State>, actions: seq<Action>, k: nat)
    requires History(capacity, states, actions) && k < |states| && TakenApart(states, actions, k)
    ensures InOrder(states[k])
  {
    if k > 0 {
      InOrderWhileApart(capacity, states, actions, k - 1);
      AlwaysInv(capacity, states, actions, k - 1);
      StepInOrder(capacity, states[k - 1], actions[k - 1]);
    }
  }

  lemma InvFacts(capacity: nat, states: seq<State>, actions: seq<Action>, k: nat)
    requires History(capacity, states, actions) && k < |states|
    ensures OverflowOk(states[k]) && Awake(states[k])
  {
    AlwaysInv(capacity, states, actions, k);
  }

  lemma AlwaysNamed(capacity: nat, states: seq<State>, actions: seq<Action>, k: nat)
    requires History(capacity, states, actions) && k < |states|
    ensures Named(states[k].consumed, Line(states[k]))
  {
    AlwaysInv(capacity, states, actions, k);
  }

  lemma InOrderAscends(s: State)
    requires InOrder(s)
    ensures Ascending(Line(s))
  {
  }

  /**
   What the worker observes, and will observe next, are readings consumed, each
   of its own series. The order promised for a series' readings holds exactly as
   long as the overflow is only taken while it shares no series with the buffer.
   */
  lemma {:induction false} OrderedExactlyWhileApart(capacity: nat, states: seq<State>, actions: seq<Action>, k: nat)
    requires History(capacity, states, actions) && k < |states|
    ensures Named(states[k].consumed, Line(states[k]))
    ensures Ascending(Line(states[k])) <==> TakenApart(states, actions, k)
  {
    hide Inv, InOrder, Ascending, Apart, Apply, Init;
    AlwaysNamed(capacity, states, actions, k);
    if TakenApart(states, actions, k) {
      InOrderWhileApart(capacity, states, actions, k);
      assert Ascending(Line(states[k])) by { InOrderAscends(states[k]); }
    } else if TakenApart(states, actions, k - 1) {
      InOrderWhileApart(capacity, states, actions, k - 1);
      InvFacts(capacity, states, actions, k - 1);
      TakeOutOfOrder(capacity, states[k - 1]);
    } else {
      OrderedExactlyWhileApart(capacity, states, actions, k - 1);
      InvFacts(capacity, states, actions, k - 1);
      StaysOutOfOrder(capacity, states[k - 1], actions[k - 1]);
    }
  }

  /**
   It takes more readings than the buffer holds, between finding it empty and taking the overflow,
   to break the order.
   */
  lemma FewReadingsStayApart(capacity: nat, states: seq<State>, actions: seq<Action>, k: nat)
    requires History(capacity, states, actions) && k < |actions| && actions[k].Take?
    requires states[k].worker.since <= capacity
    ensures Apart(states[k].q)
  {
    AlwaysInv(capacity, states, actions, k);
  }

  // ---------- Out of order ----------

  /** The worker has found the buffer empty, and k readings of a series have been offered since. */
  function Filled(s: Series, k: nat): State {
    State(seq(k + 1, i => s), Queue(Filling(s, k), map[], [], []), [], [(s, 0)], Locked, Taking(k))
  }

  function Filling(s: Series, k: nat): seq<(Series, int)> {
    seq(k, i => (s, i + 1))
  }

  lemma {:induction false} FillBuffer(capacity: nat, s: Series, k: nat)
    returns (states: seq<State>, actions: seq<Action>)
    requires 0 < capacity && k <= capacity
    ensures History(capacity, states, actions) && states[|actions|] == Filled(s, k)
  {
    if k == 0 {
      var s0 := State([], Queue([], map[], [], []), [], [], Unlocked, Waiting);
      actions := [Lock, Offer(s), Receive, Observe, Test];
      var s1 := Apply(capacity, s0, Lock);
      var s2 := Apply(capacity, s1, Offer(s));
      var s3 := Apply(capacity, s2, Receive);
      var s4 := Apply(capacity, s3, Observe);
      var s5 := Apply(capacity, s4, Test);
      states := [s0, s1, s2, s3, s4, s5];
    } else {
      states, actions := FillBuffer(capacity, s, k - 1);
      var last := states[|actions|];
      assert Filling(s, k - 1) + [(s, k)] == Filling(s, k);
      assert last.consumed + [s] == Filled(s, k).consumed;
      states, actions := Extended(capacity, states, actions, Offer(s));
    }
  }

  lemma Extended(capacity: nat, states: seq<State>, actions: seq<Action>, a: Action)
    returns (states': seq<State>, actions': seq<Action>)
    requires History(capacity, states, actions) && Enabled(states[|actions|], a)
    ensures History(capacity, states', actions') && |actions'| == |actions| + 1
    ensures states'[|actions'|] == Apply(capacity, states[|actions|], a)
  {
    states', actions' := states + [Apply(capacity, states[|actions|], a)], actions + [a];
  }

  /**
   One reading more than the buffer holds, offered between the worker finding
   it empty and taking the overflow, reaches the worker before those in the buffer.
   */
  lemma OvertakingHappens(capacity: nat, s: Series) returns (states: seq<State>, actions: seq<Action>)
    requires capacity > 0
    ensures History(capacity, states, actions)
    ensures states[|actions|].observed == [(s, 0), (s, capacity + 1), (s, 1)]
  {
    states, actions := FillBuffer(capacity, s, capacity);
    hide History;
    states, actions := Extended(capacity, states, actions, Offer(s));
    states, actions := Extended(capacity, states, actions, Insert);
    states, actions := Extended(capacity, states, actions, Unlock);
    states, actions := Extended(capacity, states, actions, Take);
    states, actions := Extended(capacity, states, actions, Observe);
    states, actions := Extended(capacity, states, actions, Finish);
    states, actions := Extended(capacity, states, actions, Receive);
    states, actions := Extended(capacity, states, actions, Observe);
  }
}
