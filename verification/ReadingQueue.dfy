/**
 The hand-off of readings to the automation worker: a bounded buffer, and an
 overflow that keeps the latest reading of each series once the buffer is full.
 */
module ReadingQueue {
  import opened Automations

  const READING_BUFFER: nat := 1024

  /**
   The buffered channel, the overflow with its series in the order they joined it, and the readings
   replaced there.
   */
  datatype Queue<R> = Queue(buffer: seq<(Series, R)>, overflow: map<Series, R>, order: seq<Series>,
                            dropped: seq<(Series, R)>)

  ghost predicate QueueOk<R>(q: Queue<R>) {
    && (forall s :: s in q.order <==> s in q.overflow)
    && (forall i, j :: 0 <= i < j < |q.order| ==> q.order[i] != q.order[j])
  }

  predicate CanSend<R>(q: Queue<R>, capacity: nat) {
    q.order == [] && |q.buffer| < capacity
  }

  function Sent<R>(q: Queue<R>, s: Series, r: R): Queue<R> {
    q.(buffer := q.buffer + [(s, r)])
  }

  function Inserted<R>(q: Queue<R>, s: Series, r: R): Queue<R> {
    Queue(q.buffer, q.overflow[s := r],
          if s in q.overflow then q.order else q.order + [s],
          if s in q.overflow then q.dropped + [(s, q.overflow[s])] else q.dropped)
  }

  function Offered<R>(q: Queue<R>, s: Series, r: R, capacity: nat): Queue<R> {
    if CanSend(q, capacity) then Sent(q, s, r) else Inserted(q, s, r)
  }

  function OfferedAll<R>(q: Queue<R>, batch: seq<(Series, R)>, capacity: nat): Queue<R> {
    if batch == [] then q
    else Offered(OfferedAll(q, batch[..|batch| - 1], capacity), batch[|batch| - 1].0, batch[|batch| - 1].1, capacity)
  }

  /** The overflow, in the order its series joined. */
  function Overflow<R>(q: Queue<R>): seq<(Series, R)>
    requires QueueOk(q)
  {
    seq(|q.order|, i requires 0 <= i < |q.order| => (q.order[i], q.overflow[q.order[i]]))
  }

  function Emptied<R>(q: Queue<R>): Queue<R> {
    q.(overflow := map[], order := [])
  }

  lemma InsertedOk<R>(q: Queue<R>, s: Series, r: R)
    requires QueueOk(q)
    ensures QueueOk(Inserted(q, s, r))
  {
  }

  // ---------- What becomes of a batch ----------

  /** How many of a batch's readings are buffered: as many as there is room for, and none while any wait. */
  function Fitting<R>(q: Queue<R>, size: nat, capacity: nat): nat {
    if q.order != [] || |q.buffer| >= capacity then 0
    else if size < capacity - |q.buffer| then size
    else capacity - |q.buffer|
  }

  ghost predicate Waits<R>(batch: seq<(Series, R)>, n: nat, s: Series) {
    exists i :: n <= i < |batch| && batch[i].0 == s
  }

  ghost predicate LastOfSeries<R>(batch: seq<(Series, R)>, i: nat)
    requires i < |batch|
  {
    forall j :: i < j < |batch| ==> batch[j].0 != batch[i].0
  }

  /** The first series came up in the batch before the second did. */
  ghost predicate WaitsBefore<R>(batch: seq<(Series, R)>, n: nat, a: Series, b: Series) {
    exists i :: n <= i < |batch| && batch[i].0 == a && forall j :: n <= j <= i ==> batch[j].0 != b
  }

  /**
   From the n-th on the readings wait, of each series the last, in the order the series came up; the
   others are replaced.
   */
  ghost predicate WaitFrom<R>(q: Queue<R>, after: Queue<R>, batch: seq<(Series, R)>, n: nat) {
    && (forall s :: s in after.overflow <==> s in q.overflow || Waits(batch, n, s))
    && (forall i :: n <= i < |batch| && LastOfSeries(batch, i) ==>
          batch[i].0 in after.overflow && after.overflow[batch[i].0] == batch[i].1)
    && (forall s ::
          s in q.overflow && !Waits(batch, n, s) ==> s in after.overflow && after.overflow[s] == q.overflow[s])
    && (forall a, b :: |q.order| <= a < b < |after.order| ==> WaitsBefore(batch, n, after.order[a], after.order[b]))
  }

  ghost predicate IsSplit<R>(q: Queue<R>, after: Queue<R>, batch: seq<(Series, R)>, n: nat) {
    && QueueOk(after) && n <= |batch|
    && after.buffer == q.buffer + batch[..n]
    && q.order <= after.order && q.dropped <= after.dropped
    && |after.order| - |q.order| + |after.dropped| - |q.dropped| == |batch| - n
    && WaitFrom(q, after, batch, n)
  }

  /** The readings of a batch that fit are buffered in turn, and from the first that does not all of them wait. */
  lemma {:induction false} BatchIsSplit<R>(q: Queue<R>, batch: seq<(Series, R)>, capacity: nat)
    requires QueueOk(q)
    ensures IsSplit(q, OfferedAll(q, batch, capacity), batch, Fitting(q, |batch|, capacity))
  {
    if batch == [] {
      assert batch[..0] == [];
    } else {
      var (front, last) := (batch[..|batch| - 1], batch[|batch| - 1]);
      BatchIsSplit(q, front, capacity);
      var (before, k) := (OfferedAll(q, front, capacity), Fitting(q, |front|, capacity));
      assert batch == front + [last];
      hide IsSplit, Fitting, CanSend, Sent, Inserted;
      if CanSend(before, capacity) {
        FitsNext(q, front, capacity);
        SentSplit(q, before, front, last);
      } else {
        FitsNoMore(q, front, capacity);
        InsertedSplit(q, before, front, last, k);
      }
    }
  }

  lemma SentSplit<R>(q: Queue<R>, before: Queue<R>, front: seq<(Series, R)>, last: (Series, R))
    requires IsSplit(q, before, front, |front|) && before.order == q.order
    ensures IsSplit(q, Sent(before, last.0, last.1), front + [last], |front| + 1)
  {
    SentLeaves(q, before, front, last);
    assert (front + [last])[..|front| + 1] == front[..|front|] + [last];
    hide WaitFrom;
  }

  lemma InsertedSplit<R>(q: Queue<R>, before: Queue<R>, front: seq<(Series, R)>, last: (Series, R), n: nat)
    requires QueueOk(q) && IsSplit(q, before, front, n)
    ensures IsSplit(q, Inserted(before, last.0, last.1), front + [last], n)
  {
    hide WaitFrom;
    InsertedOk(before, last.0, last.1);
    OneMoreWaits(q, before, front, last, n);
    assert (front + [last])[..n] == front[..n];
  }

  lemma FitsNext<R>(q: Queue<R>, front: seq<(Series, R)>, capacity: nat)
    requires var before := OfferedAll(q, front, capacity);
             IsSplit(q, before, front, Fitting(q, |front|, capacity)) && CanSend(before, capacity)
    ensures Fitting(q, |front|, capacity) == |front| && Fitting(q, |front| + 1, capacity) == |front| + 1
    ensures OfferedAll(q, front, capacity).order == q.order == []
  {
    hide WaitFrom, QueueOk;
  }

  lemma FitsNoMore<R>(q: Queue<R>, front: seq<(Series, R)>, capacity: nat)
    requires var before := OfferedAll(q, front, capacity);
             IsSplit(q, before, front, Fitting(q, |front|, capacity)) && !CanSend(before, capacity)
    ensures Fitting(q, |front| + 1, capacity) == Fitting(q, |front|, capacity)
  {
    hide WaitFrom, QueueOk;
  }

  lemma SentLeaves<R>(q: Queue<R>, before: Queue<R>, front: seq<(Series, R)>, last: (Series, R))
    requires WaitFrom(q, before, front, |front|) && before.order == q.order
    ensures WaitFrom(q, Sent(before, last.0, last.1), front + [last], |front| + 1)
  {
  }

  lemma OneMoreWaits<R>(q: Queue<R>, before: Queue<R>, front: seq<(Series, R)>, last: (Series, R), n: nat)
    requires QueueOk(q) && QueueOk(before) && q.order <= before.order && n <= |front| && WaitFrom(q, before, front, n)
    ensures WaitFrom(q, Inserted(before, last.0, last.1), front + [last], n)
  {
    var (after, batch) := (Inserted(before, last.0, last.1), front + [last]);
    forall s ensures Waits(batch, n, s) <==> Waits(front, n, s) || s == last.0 {
      WaitsMore(front, last, n, s);
    }
    forall i | n <= i < |batch| && LastOfSeries(batch, i)
      ensures batch[i].0 in after.overflow && after.overflow[batch[i].0] == batch[i].1
    {
      LastMore(front, last, i);
    }
    hide Waits, LastOfSeries;
    forall a, b | |q.order| <= a < b < |after.order| ensures WaitsBefore(batch, n, after.order[a], after.order[b]) {
      JoinedBefore(q, before, front, n, a, last.0);
      if b < |before.order| {
        BeforeMore(front, last, n, before.order[a], before.order[b]);
      } else {
        BeforeLast(front, last, n, before.order[a]);
      }
    }
  }

  lemma WaitsMore<R>(front: seq<(Series, R)>, last: (Series, R), n: nat, s: Series)
    requires n <= |front|
    ensures Waits(front + [last], n, s) <==> Waits(front, n, s) || s == last.0
  {
    var batch := front + [last];
    if Waits(front, n, s) {
      var i :| n <= i < |front| && front[i].0 == s;
      assert batch[i].0 == s;
    }
    assert batch[|front|] == last;
  }

  lemma LastMore<R>(front: seq<(Series, R)>, last: (Series, R), i: nat)
    requires i <= |front| && LastOfSeries(front + [last], i)
    ensures i < |front| ==> LastOfSeries(front, i) && front[i].0 != last.0
  {
    var batch := front + [last];
    if i < |front| {
      assert batch[|front|].0 != batch[i].0 && forall j :: i < j < |front| ==> batch[j] == front[j];
    }
  }

  lemma BeforeMore<R>(front: seq<(Series, R)>, last: (Series, R), n: nat, a: Series, b: Series)
    requires WaitsBefore(front, n, a, b)
    ensures WaitsBefore(front + [last], n, a, b)
  {
    var batch := front + [last];
    var i :| n <= i < |front| && front[i].0 == a && forall j :: n <= j <= i ==> front[j].0 != b;
    assert batch[i].0 == a && forall j :: n <= j <= i ==> batch[j] == front[j];
  }

  lemma BeforeLast<R>(front: seq<(Series, R)>, last: (Series, R), n: nat, a: Series)
    requires Waits(front, n, a) && !Waits(front, n, last.0)
    ensures WaitsBefore(front + [last], n, a, last.0)
  {
    var batch := front + [last];
    var i :| n <= i < |front| && front[i].0 == a;
    assert batch[i].0 == a && forall j :: n <= j <= i ==> batch[j] == front[j];
  }

  lemma JoinedBefore<R>(q: Queue<R>, before: Queue<R>, front: seq<(Series, R)>, n: nat, a: nat, s: Series)
    requires QueueOk(q) && QueueOk(before) && q.order <= before.order && WaitFrom(q, before, front, n)
    requires |q.order| <= a < |before.order|
    ensures Waits(front, n, before.order[a])
  {
    assert forall i :: 0 <= i < |q.order| ==> q.order[i] == before.order[i];
    assert before.order[a] !in q.order;
  }

  class ReadingConsumer<R(0)> {
    const capacity: nat
    var buffer: seq<(Series, R)>
    var overflow: map<Series, R>
    var order: seq<Series>
    ghost var replacements: seq<(Series, R)>
    /** The counter of readings the worker never sees. */
    var dropped: nat

    ghost function Contents(): Queue<R>
      reads this
    {
      Queue(buffer, overflow, order, replacements)
    }

    ghost predicate Valid()
      reads this
    {
      QueueOk(Contents()) && dropped == |replacements| && |buffer| <= capacity
    }

    constructor ()
      ensures Valid() && Contents() == Queue([], map[], [], []) && capacity == READING_BUFFER
    {
      capacity := READING_BUFFER;
      buffer, overflow, order, replacements, dropped := [], map[], [], [], 0;
    }

    /** Never blocks: a reading that does not fit waits in the overflow, replacing its series' last. */
    method Consume(batch: seq<(Series, R)>)
      requires Valid()
      modifies this
      ensures Valid() && Contents() == OfferedAll(old(Contents()), batch, capacity)
    {
      var replaced := 0;
      for i := 0 to |batch|
        invariant QueueOk(Contents()) && |buffer| <= capacity && dropped + replaced == |replacements|
        invariant Contents() == OfferedAll(old(Contents()), batch[..i], capacity)
      {
        assert batch[..i + 1][..i] == batch[..i];
        var (s, reading) := batch[i];
        if |order| == 0 && |buffer| < capacity {
          buffer := buffer + [(s, reading)];
        } else {
          InsertedOk(Contents(), s, reading);
          if s in overflow {
            replaced := replaced + 1;
            replacements := replacements + [(s, overflow[s])];
          } else {
            order := order + [s];
          }
          overflow := overflow[s := reading];
        }
      }
      assert batch[..|batch|] == batch;
      dropped := dropped + replaced;
    }

    method TakeOverflow() returns (taken: seq<(Series, R)>)
      requires Valid()
      modifies this
      ensures Valid() && taken == Overflow(old(Contents())) && Contents() == Emptied(old(Contents()))
      ensures |taken| == |old(order)| && order == [] && overflow == map[] && buffer == old(buffer)
      ensures forall i :: 0 <= i < |taken| ==> taken[i].0 == old(order)[i] && old(overflow)[taken[i].0] == taken[i].1
    {
      taken := [];
      for i := 0 to |order|
        modifies {}
        invariant |taken| == i
        invariant forall j :: 0 <= j < i ==> taken[j] == (order[j], overflow[order[j]])
      {
        assert order[i] in overflow;
        taken := taken + [(order[i], overflow[order[i]])];
      }
      overflow := map[];
      order := [];
    }
  }
}
