/**
 The scheduler's due entries: a binary heap ordered by due time whose entries
 know their own slot, beside a map from key to entry. Seen from outside it is
 a plain map from key to due time.
 */
module DueQueue {
  import opened Wrappers

  datatype DueKind = DueTrigger | DueResume | DueHold

  /** A key says what the ID in it is of: a trigger and a run may have the same. */
  datatype DueKey = DueKey(kind: DueKind, id: int)

  /** What a popped entry says to whoever fires it. */
  datatype Popped = Popped(key: DueKey, due: Instant)

  class DueEntry {
    const key: DueKey
    var due: Instant
    var index: nat

    constructor (key: DueKey, due: Instant)
      ensures this.key == key && this.due == due
    {
      this.key := key;
      this.due := due;
      this.index := 0;
    }
  }

  function Parent(i: nat): nat {
    if i == 0 then 0 else (i - 1) / 2
  }

  // ---------- Heap order, over the due times in slot order ----------

  /** The first n are a heap: none is due before its parent. */
  ghost predicate Heap(d: seq<Instant>, n: nat)
    requires n <= |d|
  {
    forall i {:trigger Parent(i)} :: 0 < i < n ==> d[Parent(i)] <= d[i]
  }

  /** Children of the hole are no earlier than the hole's parent. */
  ghost predicate Bridged(d: seq<Instant>, n: nat, hole: nat)
    requires n <= |d|
  {
    hole < n && hole > 0 ==>
      forall i {:trigger Parent(i)} :: 0 < i < n && Parent(i) == hole ==> d[Parent(hole)] <= d[i]
  }

  /** A heap but for the hole, which may be out of order with its parent or its children. */
  ghost predicate HeapButFor(d: seq<Instant>, n: nat, hole: nat)
    requires n <= |d|
  {
    && (forall i {:trigger Parent(i)} :: 0 < i < n && i != hole && Parent(i) != hole ==> d[Parent(i)] <= d[i])
    && Bridged(d, n, hole)
  }

  /** A heap but for the hole, which may be due before its parent. */
  ghost predicate HeapBelow(d: seq<Instant>, n: nat, hole: nat)
    requires n <= |d|
  {
    && (forall i {:trigger Parent(i)} :: 0 < i < n && i != hole ==> d[Parent(i)] <= d[i])
    && Bridged(d, n, hole)
  }

  /** A heap but for the hole, which may be due after its children. */
  ghost predicate HeapAbove(d: seq<Instant>, n: nat, hole: nat)
    requires n <= |d|
  {
    && (forall i {:trigger Parent(i)} :: 0 < i < n && Parent(i) != hole ==> d[Parent(i)] <= d[i])
    && Bridged(d, n, hole)
  }

  ghost function Swapped<T>(s: seq<T>, i: nat, j: nat): seq<T>
    requires i < |s| && j < |s|
  {
    s[i := s[j]][j := s[i]]
  }

  lemma {:induction false} RootIsLeast(d: seq<Instant>, n: nat, i: nat)
    requires i < n <= |d| && Heap(d, n)
    ensures d[0] <= d[i]
  {
    if i > 0 {
      RootIsLeast(d, n, Parent(i));
    }
  }

  /** How far sifting down from start to i has got. */
  ghost predicate HeapState(d: seq<Instant>, n: nat, i: nat, start: nat)
    requires n <= |d|
  {
    if i == start then HeapButFor(d, n, i) else HeapAbove(d, n, i)
  }

  lemma SwapWithParent(d: seq<Instant>, n: nat, j: nat)
    requires 0 < j < n <= |d| && HeapBelow(d, n, j) && d[j] < d[Parent(j)]
    ensures HeapBelow(Swapped(d, Parent(j), j), n, Parent(j))
  {
    var after := Swapped(d, Parent(j), j);
    var p := Parent(j);
    forall i {:trigger Parent(i)} | 0 < i < n && i != p ensures after[Parent(i)] <= after[i] {
      assert p > 0 ==> d[Parent(p)] <= d[p];
    }
    assert Bridged(after, n, p) by {
      if p > 0 {
        assert d[Parent(p)] <= d[p];
        forall i {:trigger Parent(i)} | 0 < i < n && Parent(i) == p ensures after[Parent(p)] <= after[i] {
        }
      }
    }
  }

  /** The smaller child goes up; what it leaves behind may still have to go down. */
  lemma SwapWithChild(d: seq<Instant>, n: nat, i: nat, c: nat, start: nat)
    requires start <= i < c < n <= |d| && Parent(c) == i && d[c] < d[i]
    requires forall k {:trigger Parent(k)} :: 0 < k < n && Parent(k) == i ==> d[c] <= d[k]
    requires HeapState(d, n, i, start)
    ensures HeapState(Swapped(d, i, c), n, c, start)
  {
    var after := Swapped(d, i, c);
    forall k {:trigger Parent(k)} | 0 < k < n && Parent(k) != c ensures after[Parent(k)] <= after[k] {
    }
    assert Bridged(after, n, c) by {
      forall k {:trigger Parent(k)} | 0 < k < n && Parent(k) == c ensures after[Parent(c)] <= after[k] {
      }
    }
  }

  /** The hole's only children are the next two after twice its slot. */
  lemma Children(d: seq<Instant>, n: nat, i: nat, least: Instant)
    requires n <= |d|
    requires 2 * i + 1 < n ==> least <= d[2 * i + 1]
    requires 2 * i + 2 < n ==> least <= d[2 * i + 2]
    ensures forall k {:trigger Parent(k)} :: 0 < k < n && Parent(k) == i ==> least <= d[k]
  {
  }

  lemma NoChildren(n: nat, i: nat)
    requires 2 * i + 1 >= n
    ensures forall k {:trigger Parent(k)} :: 0 < k < n ==> Parent(k) != i
  {
  }

  /** An entry that is no later than its children has gone down far enough. */
  lemma Settles(d: seq<Instant>, n: nat, i: nat, start: nat)
    requires start <= i <= n <= |d|
    requires HeapState(d, n, i, start)
    requires forall k {:trigger Parent(k)} :: 0 < k < n && Parent(k) == i ==> d[i] <= d[k]
    ensures if i == start then HeapBelow(d, n, i) else Heap(d, n)
  {
  }

  lemma ChangedDue(d: seq<Instant>, i: nat, due: Instant)
    requires i < |d| && Heap(d, |d|)
    ensures HeapButFor(d[i := due], |d|, i)
  {
  }

  lemma AppendedDue(d: seq<Instant>, due: Instant)
    requires Heap(d, |d|)
    ensures HeapBelow(d + [due], |d| + 1, |d|)
  {
  }

  lemma LastMovedTo(d: seq<Instant>, i: nat)
    requires i < |d| && Heap(d, |d|)
    ensures HeapButFor(Swapped(d, i, |d| - 1), |d| - 1, i)
  {
  }

  lemma NothingAboveRoot(d: seq<Instant>, n: nat)
    requires n <= |d| && HeapBelow(d, n, 0)
    ensures Heap(d, n)
  {
  }

  lemma FirstOfHeap(d: seq<Instant>, n: nat)
    requires n <= |d|
    ensures Heap(d, |d|) ==> Heap(d, n)
  {
  }

  lemma ShorterHeap(d: seq<Instant>, n: nat)
    requires n <= |d| && Heap(d, n)
    ensures Heap(d[..n], n)
  {
  }

  // ---------- The entries ----------

  ghost function Dues(q: seq<DueEntry>): (d: seq<Instant>)
    reads q
    ensures |d| == |q|
  {
    seq(|q|, i requires 0 <= i < |q| reads q => q[i].due)
  }

  /** Every entry's index is its slot, so no entry is in two slots. */
  ghost predicate Indexed(q: seq<DueEntry>)
    reads q
  {
    forall i :: 0 <= i < |q| ==> q[i].index == i
  }

  ghost function Elements(q: seq<DueEntry>): set<DueEntry> {
    set e | e in q
  }

  lemma ValuesAfterAdd(m: map<DueKey, DueEntry>, key: DueKey, entry: DueEntry)
    requires key !in m
    ensures m[key := entry].Values == m.Values + {entry}
  {
    var after := m[key := entry];
    assert after[key] == entry;
    forall e | e in m.Values ensures e in after.Values {
      var k :| k in m && m[k] == e;
      assert after[k] == e;
    }
  }

  lemma ValuesAfterRemove(m: map<DueKey, DueEntry>, key: DueKey)
    requires key in m && forall k :: k in m ==> m[k].key == k
    ensures (m - {key}).Values == m.Values - {m[key]}
  {
    var after := m - {key};
    forall e | e in m.Values && e != m[key] ensures e in after.Values {
      var k :| k in m && m[k] == e;
      assert after[k] == e;
    }
  }

  ghost function Pairs(due: seq<DueEntry>): (pairs: seq<Popped>)
    reads due
    ensures |pairs| == |due|
  {
    seq(|due|, i requires 0 <= i < |due| reads due => Popped(due[i].key, due[i].due))
  }

  function LaterThan(m: map<DueKey, Instant>, now: Instant): map<DueKey, Instant> {
    map key | key in m && m[key] > now :: m[key]
  }

  /** The popped pairs are exactly the map's entries due by now, each once, in order of due time. */
  ghost predicate PopsAllDue(m: map<DueKey, Instant>, popped: seq<Popped>, now: Instant) {
    && (forall i :: 0 <= i < |popped| ==> popped[i].key in m && popped[i].due == m[popped[i].key] <= now)
    && (forall key :: key in m && m[key] <= now ==> exists i :: 0 <= i < |popped| && popped[i].key == key)
    && (forall i, j :: 0 <= i < j < |popped| ==> popped[i].key != popped[j].key && popped[i].due <= popped[j].due)
  }

  /** Every entry is left, or has been popped. */
  ghost predicate Accounted(m: map<DueKey, Instant>, popped: seq<Popped>, rest: map<DueKey, Instant>) {
    && (forall key :: key in rest ==> key in m && rest[key] == m[key])
    && (forall key :: key in m ==> key in rest || exists i :: 0 <= i < |popped| && popped[i].key == key)
  }

  /** What was popped came due by now, each key once and in order, and no later than anything left. */
  ghost predicate PoppedFirst(m: map<DueKey, Instant>, popped: seq<Popped>, rest: map<DueKey, Instant>, now: Instant) {
    && (forall i ::
          0 <= i < |popped| ==>
            popped[i].key in m && popped[i].key !in rest && popped[i].due == m[popped[i].key] <= now)
    && (forall i, j :: 0 <= i < j < |popped| ==> popped[i].key != popped[j].key && popped[i].due <= popped[j].due)
    && (forall i, key :: 0 <= i < |popped| && key in rest ==> popped[i].due <= rest[key])
  }

  /** Part of the way there. */
  ghost predicate DrainedTo(m: map<DueKey, Instant>, popped: seq<Popped>, rest: map<DueKey, Instant>, now: Instant) {
    Accounted(m, popped, rest) && PoppedFirst(m, popped, rest, now)
  }

  lemma StartDrain(m: map<DueKey, Instant>, now: Instant)
    ensures DrainedTo(m, [], m, now)
  {
  }

  lemma AccountedStill(m: map<DueKey, Instant>, popped: seq<Popped>, rest: map<DueKey, Instant>, key: DueKey)
    requires Accounted(m, popped, rest) && key in rest
    ensures Accounted(m, popped + [Popped(key, rest[key])], rest - {key})
  {
    var after := popped + [Popped(key, rest[key])];
    forall other | other in m && other !in rest - {key} ensures exists i :: 0 <= i < |after| && after[i].key == other {
      if other == key {
        assert after[|popped|].key == other;
      } else {
        var i :| 0 <= i < |popped| && popped[i].key == other;
        assert after[i].key == other;
      }
    }
  }

  lemma PoppedNext(m: map<DueKey, Instant>, popped: seq<Popped>, rest: map<DueKey, Instant>, now: Instant, key: DueKey)
    requires PoppedFirst(m, popped, rest, now) && key in rest && key in m && m[key] == rest[key] <= now
    requires forall other :: other in rest ==> rest[key] <= rest[other]
    ensures PoppedFirst(m, popped + [Popped(key, rest[key])], rest - {key}, now)
  {
    var after := popped + [Popped(key, rest[key])];
    assert forall i :: 0 <= i < |popped| ==> after[i] == popped[i];
    forall i, j | 0 <= i < j < |after| ensures after[i].key != after[j].key && after[i].due <= after[j].due {
      if j == |popped| {
        assert popped[i].key !in rest && popped[i].due <= rest[key];
      }
    }
  }

  lemma Drain(m: map<DueKey, Instant>, popped: seq<Popped>, rest: map<DueKey, Instant>, now: Instant, key: DueKey)
    requires DrainedTo(m, popped, rest, now) && key in rest && rest[key] <= now
    requires forall other :: other in rest ==> rest[key] <= rest[other]
    ensures DrainedTo(m, popped + [Popped(key, rest[key])], rest - {key}, now)
  {
    AccountedStill(m, popped, rest, key);
    assert key in m && rest[key] == m[key];
    PoppedNext(m, popped, rest, now, key);
  }

  lemma EndDrain(m: map<DueKey, Instant>, popped: seq<Popped>, rest: map<DueKey, Instant>, now: Instant)
    requires DrainedTo(m, popped, rest, now) && forall key :: key in rest ==> rest[key] > now
    ensures PopsAllDue(m, popped, now) && rest == LaterThan(m, now)
  {
  }

  class Scheduler {
    var entries: map<DueKey, DueEntry>
    var queue: seq<DueEntry>

    /** The map and the heap hold the same entries. */
    ghost predicate Linked()
      reads this
    {
      (forall key :: key in entries ==> entries[key].key == key) && entries.Values == Elements(queue)
    }

    ghost predicate Valid()
      reads this, queue
    {
      Indexed(queue) && Heap(Dues(queue), |queue|) && Linked()
    }

    /** What the queue is to its users: when each key is next due. */
    ghost function Contents(): map<DueKey, Instant>
      reads this, entries.Values
    {
      map key | key in entries :: entries[key].due
    }

    constructor ()
      ensures Valid() && Contents() == map[] && queue == []
    {
      entries := map[];
      queue := [];
    }

    // ---------- The heap ----------

    method Swap(i: nat, j: nat)
      requires i < |queue| && j < |queue| && Indexed(queue)
      modifies this`queue, {queue[i], queue[j]}`index
      ensures queue == Swapped(old(queue), i, j)
      ensures Indexed(queue) && Elements(queue) == old(Elements(queue))
      ensures Dues(queue) == Swapped(old(Dues(queue)), i, j)
    {
      queue := queue[i := queue[j]][j := queue[i]];
      queue[i].index := i;
      queue[j].index := j;
      assert forall e :: e in old(queue) ==> e in queue by {
        forall k | 0 <= k < |old(queue)| ensures old(queue)[k] in queue {
          assert k != i && k != j ==> queue[k] == old(queue)[k];
          assert queue[i] == old(queue)[j] && queue[j] == old(queue)[i];
        }
      }
    }

    /** Moves an entry that may be due before its parent up to its place. */
    method Up(j0: nat, ghost n: nat)
      requires j0 < n <= |queue| && Indexed(queue) && HeapBelow(Dues(queue), n, j0)
      modifies this`queue, Elements(queue)`index
      ensures |queue| == old(|queue|) && Elements(queue) == old(Elements(queue))
      ensures forall k :: n <= k < |queue| ==> queue[k] == old(queue)[k]
      ensures Indexed(queue) && Heap(Dues(queue), n)
    {
      var j: nat := j0;
      while j > 0
        invariant j < n <= |queue| == |old(queue)|
        invariant Elements(queue) == Elements(old(queue))
        invariant forall k :: n <= k < |queue| ==> queue[k] == old(queue)[k]
        invariant Indexed(queue) && HeapBelow(Dues(queue), n, j)
      {
        var i := Parent(j);
        if queue[i].due <= queue[j].due {
          break;
        }
        SwapWithParent(Dues(queue), n, j);
        assert queue[i] in Elements(queue) && queue[j] in Elements(queue);
        Swap(i, j);
        j := i;
      }
    }

    /** Moves an entry that may be due after its children down to its place, and tells whether it moved. */
    method Down(i0: nat, n: nat) returns (moved: bool)
      requires i0 <= n <= |queue| && Indexed(queue) && HeapButFor(Dues(queue), n, i0)
      modifies this`queue, Elements(queue)`index
      ensures |queue| == old(|queue|) && Elements(queue) == old(Elements(queue))
      ensures forall k :: n <= k < |queue| ==> queue[k] == old(queue)[k]
      ensures Indexed(queue)
      ensures if moved then Heap(Dues(queue), n) else HeapBelow(Dues(queue), n, i0)
    {
      hide HeapButFor, HeapAbove, HeapBelow, Heap;
      var i: nat := i0;
      while true
        invariant i0 <= i <= n <= |queue| == |old(queue)|
        invariant Elements(queue) == Elements(old(queue))
        invariant forall k :: n <= k < |queue| ==> queue[k] == old(queue)[k]
        invariant Indexed(queue)
        invariant HeapState(Dues(queue), n, i, i0)
        decreases n - i
      {
        var j1 := 2 * i + 1;
        if j1 >= n {
          NoChildren(n, i);
          Settles(Dues(queue), n, i, i0);
          break;
        }
        var j := j1;
        var j2 := j1 + 1;
        if j2 < n && queue[j2].due < queue[j1].due {
          j := j2;
        }
        Children(Dues(queue), n, i, Dues(queue)[j]);
        if queue[i].due <= queue[j].due {
          Settles(Dues(queue), n, i, i0);
          break;
        }
        SwapWithChild(Dues(queue), n, i, j, i0);
        assert queue[i] in Elements(queue) && queue[j] in Elements(queue);
        Swap(i, j);
        i := j;
      }
      moved := i > i0;
    }

    /** Puts an entry whose due time changed back in its place. */
    method Fix(i: nat)
      requires i < |queue| && Indexed(queue) && HeapButFor(Dues(queue), |queue|, i)
      modifies this`queue, Elements(queue)`index
      ensures |queue| == old(|queue|) && Elements(queue) == old(Elements(queue))
      ensures Indexed(queue) && Heap(Dues(queue), |queue|)
    {
      var moved := Down(i, |queue|);
      if !moved {
        Up(i, |queue|);
      }
    }

    /** Takes the entry in slot i out of the heap. */
    method RemoveAt(i: nat) returns (entry: DueEntry)
      requires i < |queue| && Indexed(queue) && Heap(Dues(queue), |queue|)
      modifies this`queue, Elements(queue)`index
      ensures entry == old(queue)[i]
      ensures |queue| == old(|queue|) - 1 && Elements(queue) == old(Elements(queue)) - {entry}
      ensures Indexed(queue) && Heap(Dues(queue), |queue|)
    {
      hide Heap, HeapButFor, HeapBelow;
      var n: nat := |queue| - 1;
      if n != i {
        LastMovedTo(Dues(queue), i);
        Swap(i, n);
        var moved := Down(i, n);
        if !moved {
          Up(i, n);
        }
      }
      FirstOfHeap(Dues(queue), n);
      entry := DropLast();
    }

    /** Takes the earliest entry out of the heap. */
    method Pop() returns (entry: DueEntry)
      requires 0 < |queue| && Indexed(queue) && Heap(Dues(queue), |queue|)
      modifies this`queue, Elements(queue)`index
      ensures entry == old(queue)[0]
      ensures |queue| == old(|queue|) - 1 && Elements(queue) == old(Elements(queue)) - {entry}
      ensures Indexed(queue) && Heap(Dues(queue), |queue|)
    {
      var n: nat := |queue| - 1;
      LastMovedTo(Dues(queue), 0);
      Swap(0, n);
      var moved := Down(0, n);
      if !moved {
        NothingAboveRoot(Dues(queue), n);
      }
      entry := DropLast();
    }

    method DropLast() returns (entry: DueEntry)
      requires 0 < |queue| && Indexed(queue) && Heap(Dues(queue), |queue| - 1)
      modifies this`queue
      ensures entry == old(queue)[|old(queue)| - 1]
      ensures |queue| == old(|queue|) - 1 && Elements(queue) == old(Elements(queue)) - {entry}
      ensures Indexed(queue) && Heap(Dues(queue), |queue|)
    {
      ghost var before := queue;
      entry := queue[|queue| - 1];
      ShorterHeap(Dues(queue), |queue| - 1);
      queue := queue[..|queue| - 1];
      assert Dues(queue) == Dues(before)[..|queue|];
      assert before == queue + [entry];
      assert entry !in queue by {
        assert forall k :: 0 <= k < |queue| ==> before[k] == queue[k];
      }
    }

    // ---------- What the engine calls ----------

    /** Adds the key, or moves it to another due time. */
    method Set(key: DueKey, due: Instant)
      requires Valid()
      modifies this, Elements(queue)
      ensures Valid()
      ensures Contents() == old(Contents())[key := due]
      ensures fresh(Elements(queue) - old(Elements(queue)))
    {
      hide Heap, HeapButFor, HeapBelow;
      if key in entries {
        Change(key, due);
      } else {
        var entry := new DueEntry(key, due);
        Push(entry);
        ValuesAfterAdd(entries, key, entry);
        entries := entries[key := entry];
        assert entry in Elements(queue);
      }
    }

    /** Another due time for a key that has one. */
    method Change(key: DueKey, due: Instant)
      requires Valid() && key in entries
      modifies this`queue, Elements(queue)
      ensures Valid() && Elements(queue) == old(Elements(queue))
      ensures Contents() == old(Contents())[key := due]
    {
      hide Heap, HeapButFor, HeapBelow;
      var entry := entries[key];
      assert entry in Elements(queue);
      ChangedDue(Dues(queue), entry.index, due);
      ghost var changed := Dues(queue)[entry.index := due];
      entry.due := due;
      assert Dues(queue) == changed;
      Fix(entry.index);
    }

    method Push(entry: DueEntry)
      requires Indexed(queue) && Heap(Dues(queue), |queue|) && entry !in queue
      modifies this`queue, entry`index, Elements(queue)`index
      ensures Elements(queue) == old(Elements(queue)) + {entry}
      ensures Indexed(queue) && Heap(Dues(queue), |queue|)
    {
      AppendedDue(Dues(queue), entry.due);
      ghost var longer := Dues(queue) + [entry.due];
      entry.index := |queue|;
      queue := queue + [entry];
      assert Dues(queue) == longer;
      Up(|queue| - 1, |queue|);
    }

    method Remove(key: DueKey)
      requires Valid()
      modifies this, Elements(queue)
      ensures Valid()
      ensures Contents() == old(Contents()) - {key}
      ensures Elements(queue) <= old(Elements(queue))
    {
      hide Heap;
      if key in entries {
        assert entries[key] in Elements(queue);
        var entry := RemoveAt(entries[key].index);
        ValuesAfterRemove(entries, key);
        entries := entries - {key};
      }
    }

    method Due(key: DueKey) returns (due: Option<Instant>)
      requires Valid()
      ensures due == if key in Contents() then Some(Contents()[key]) else None
    {
      due := if key in entries then Some(entries[key].due) else None;
    }

    /** The least due time of any key. */
    method Earliest() returns (due: Option<Instant>)
      requires Valid()
      ensures due.None? <==> Contents() == map[]
      ensures due.Some? ==>
                && (exists key :: key in Contents() && Contents()[key] == due.value)
                && (forall key :: key in Contents() ==> due.value <= Contents()[key])
    {
      assert forall key :: key in entries ==> entries[key] in entries.Values;
      if |queue| == 0 {
        assert entries.Values == {};
        due := None;
      } else {
        due := Some(queue[0].due);
        assert queue[0] in Elements(queue);
        assert queue[0].key in Contents() && Contents()[queue[0].key] == queue[0].due;
        forall key | key in entries ensures queue[0].due <= entries[key].due {
          assert entries[key] in Elements(queue);
          RootIsLeast(Dues(queue), |queue|, entries[key].index);
        }
      }
    }

    /** Takes the earliest entry out of heap and map. */
    method TakeEarliest() returns (entry: DueEntry)
      requires Valid() && 0 < |queue|
      modifies this, Elements(queue)`index
      ensures Valid() && |queue| == old(|queue|) - 1
      ensures entry == old(queue)[0] && Elements(queue) == old(Elements(queue)) - {entry}
      ensures entry.key in old(Contents()) && old(Contents())[entry.key] == entry.due
      ensures Contents() == old(Contents()) - {entry.key}
      ensures forall key :: key in old(Contents()) ==> entry.due <= old(Contents())[key]
    {
      forall key | key in entries ensures queue[0].due <= entries[key].due {
        assert entries[key] in Elements(queue);
        RootIsLeast(Dues(queue), |queue|, entries[key].index);
      }
      hide Heap;
      assert queue[0] in Elements(queue);
      entry := Pop();
      ValuesAfterRemove(entries, entry.key);
      entries := entries - {entry.key};
    }

    /**
     Takes out exactly the keys that have come due, in order of their due times,
     and leaves every other key as it was.
     */
    method PopDue(now: Instant) returns (due: seq<DueEntry>)
      requires Valid()
      modifies this, Elements(queue)
      ensures Valid() && Elements(queue) <= old(Elements(queue))
      ensures Contents() == LaterThan(old(Contents()), now)
      ensures PopsAllDue(old(Contents()), Pairs(due), now)
    {
      hide Heap, Indexed, DrainedTo;
      due := [];
      StartDrain(Contents(), now);
      while |queue| > 0 && queue[0].due <= now
        invariant Valid() && Elements(queue) <= old(Elements(queue))
        invariant DrainedTo(old(Contents()), Pairs(due), Contents(), now)
        decreases |queue|
      {
        ghost var pairs, rest := Pairs(due), Contents();
        var entry := TakeEarliest();
        due := due + [entry];
        assert Pairs(due) == pairs + [Popped(entry.key, entry.due)];
        Drain(old(Contents()), pairs, rest, now, entry.key);
      }
      NoneDue(now);
      EndDrain(old(Contents()), Pairs(due), Contents(), now);
    }

    /** Once the root is not due, nothing is. */
    lemma NoneDue(now: Instant)
      requires Valid() && (|queue| > 0 ==> queue[0].due > now)
      ensures forall key :: key in Contents() ==> Contents()[key] > now
    {
      forall key | key in entries ensures entries[key].due > now {
        assert entries[key] in Elements(queue);
        RootIsLeast(Dues(queue), |queue|, entries[key].index);
      }
    }
  }
}
