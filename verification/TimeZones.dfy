/**
 A time zone as its changes of offset, the wall clock it shows, and the two
 library calls the schedule makes: naming an instant by its local date and
 time, and asking when the offset in force began and ends.
 */
module TimeZones {
  import opened Wrappers

  const SECOND: int := 1_000_000_000
  const MINUTE: int := 60_000_000_000
  const HOUR: int := 3_600_000_000_000
  const DAY: int := 86_400_000_000_000

  datatype Transition = Transition(at: Instant, offset: int)

  /** The offset before the first change, then the changes in order. */
  datatype Zone = Zone(base: int, changes: seq<Transition>)

  /** Stretch i of the zone runs from change i - 1 to change i. */
  function OffsetOf(z: Zone, i: nat): int
    requires i <= |z.changes|
  {
    if i == 0 then z.base else z.changes[i - 1].offset
  }

  /** Changes are at least a day apart, and none moves the clock by 12 hours or more. */
  ghost predicate WellFormed(z: Zone) {
    forall i :: 0 <= i < |z.changes| ==> ChangeOk(z, i)
  }

  ghost predicate ChangeOk(z: Zone, i: nat)
    requires i < |z.changes|
  {
    && (i > 0 ==> z.changes[i].at - z.changes[i - 1].at >= DAY)
    && -12 * HOUR < z.changes[i].offset - OffsetOf(z, i) < 12 * HOUR
  }

  ghost predicate InStretch(z: Zone, i: nat, t: Instant) {
    && i <= |z.changes|
    && (i > 0 ==> z.changes[i - 1].at <= t)
    && (i < |z.changes| ==> t < z.changes[i].at)
  }

  lemma {:induction false} ChangesInOrder(z: Zone, i: nat, j: nat)
    requires WellFormed(z) && i <= j < |z.changes|
    ensures i < j ==> z.changes[j].at - z.changes[i].at >= DAY
    decreases j - i
  {
    if i < j {
      ChangesInOrder(z, i, j - 1);
      assert ChangeOk(z, j);
    }
  }

  /** The stretch an instant falls in, among the first n changes. */
  function Stretch(z: Zone, t: Instant, n: nat): (i: nat)
    requires n <= |z.changes|
    ensures i <= n && (i > 0 ==> z.changes[i - 1].at <= t) && (i < n ==> t < z.changes[i].at)
  {
    if n == 0 then 0
    else if z.changes[n - 1].at <= t then n
    else Stretch(z, t, n - 1)
  }

  function Offset(z: Zone, t: Instant): int {
    OffsetOf(z, Stretch(z, t, |z.changes|))
  }

  /** What a local clock shows at an instant. */
  function Wall(z: Zone, t: Instant): int {
    t + Offset(z, t)
  }

  lemma StretchIsUnique(z: Zone, i: nat, t: Instant)
    requires WellFormed(z) && InStretch(z, i, t)
    ensures Stretch(z, t, |z.changes|) == i && Wall(z, t) == t + OffsetOf(z, i)
  {
    var k := Stretch(z, t, |z.changes|);
    if k < i {
      ChangesInOrder(z, k, i - 1);
    } else if i < k {
      ChangesInOrder(z, i, k - 1);
    }
  }

  /** Wall clocks show the base offset before the first change, and from each change on its own until the next. */
  lemma WallShows(z: Zone, t: Instant)
    requires WellFormed(z)
    ensures (forall k :: 0 <= k < |z.changes| ==> t < z.changes[k].at) ==> Wall(z, t) == t + z.base
    ensures forall i ::
              0 <= i < |z.changes| && z.changes[i].at <= t && (i + 1 < |z.changes| ==> t < z.changes[i + 1].at) ==>
                          Wall(z, t) == t + z.changes[i].offset
  {
    forall i | 0 <= i < |z.changes| && z.changes[i].at <= t && (i + 1 < |z.changes| ==> t < z.changes[i + 1].at)
      ensures Wall(z, t) == t + z.changes[i].offset
    {
      StretchIsUnique(z, i + 1, t);
    }
  }

  /** The first stretch that ends after local time comes round in its own offset. */
  function FirstFit(z: Zone, local: int, i: nat := 0): (r: nat)
    requires i <= |z.changes|
    ensures i <= r <= |z.changes|
    ensures r < |z.changes| ==> local - OffsetOf(z, r) < z.changes[r].at
    ensures forall k {:trigger OffsetOf(z, k)} :: i <= k < r ==> z.changes[k].at <= local - OffsetOf(z, k)
    decreases |z.changes| - i
  {
    if i == |z.changes| || local - OffsetOf(z, i) < z.changes[i].at then i else FirstFit(z, local, i + 1)
  }

  /** The clocks skip local at the change before stretch i. */
  predicate Skipped(z: Zone, local: int, i: nat)
    requires i <= |z.changes|
  {
    i > 0 && local - OffsetOf(z, i) < z.changes[i - 1].at
  }

  /** Local comes round in stretch i and again in the next. */
  predicate Repeated(z: Zone, local: int, i: nat)
    requires i <= |z.changes|
  {
    i < |z.changes| && z.changes[i].at <= local - OffsetOf(z, i + 1)
  }

  /**
   The instant that shows a local time. When the clocks skip it, or show it
   twice, the library promises only that it uses one of the two offsets around
   the change; late says which.
   */
  function Date(z: Zone, local: int, late: bool): Instant {
    var i := FirstFit(z, local);
    if Skipped(z, local, i) then
      if late then local - OffsetOf(z, i - 1) else local - OffsetOf(z, i)
    else if Repeated(z, local, i) then
      if late then local - OffsetOf(z, i + 1) else local - OffsetOf(z, i)
    else local - OffsetOf(z, i)
  }

  /** The least instant whose local clock shows local or later. */
  function First(z: Zone, local: int): Instant {
    var i := FirstFit(z, local);
    if Skipped(z, local, i) then z.changes[i - 1].at else local - OffsetOf(z, i)
  }

  ghost predicate IsFirst(z: Zone, local: int, t: Instant) {
    Wall(z, t) >= local && forall s :: s < t ==> Wall(z, s) < local
  }

  lemma FirstIsLeast(z: Zone, local: int)
    requires WellFormed(z)
    ensures IsFirst(z, local, First(z, local))
    ensures InStretch(z, FirstFit(z, local), First(z, local))
  {
    hide FirstFit, Stretch;
    var i := FirstFit(z, local);
    var t := First(z, local);
    assert i < |z.changes| ==> ChangeOk(z, i);
    StretchIsUnique(z, i, t);
    forall s | s < t ensures Wall(z, s) < local {
      var k := Stretch(z, s, |z.changes|);
      if k > i {
        ChangesInOrder(z, i, k - 1);
      }
    }
  }

  /** Where a local time names no instant or two, the two sides are two instants, the late one after the other. */
  lemma SidesDiffer(z: Zone, local: int)
    requires WellFormed(z)
    ensures var i := FirstFit(z, local);
            if Skipped(z, local, i) || Repeated(z, local, i) then Date(z, local, false) < Date(z, local, true)
            else Date(z, local, false) == Date(z, local, true)
  {
  }

  /** How the library's answer stands to the change it is near. */
  ghost predicate DateCase(z: Zone, local: int, i: nat, t: Instant)
    requires i <= |z.changes|
  {
    if Skipped(z, local, i) then
      var jump := OffsetOf(z, i) - OffsetOf(z, i - 1);
      && 0 < jump < 12 * HOUR
      && ((InStretch(z, i, t) && Wall(z, t) == local + jump) || (InStretch(z, i - 1, t) && Wall(z, t) == local - jump))
    else
      && Wall(z, t) == local
      && (InStretch(z, i, t) || (Repeated(z, local, i) && InStretch(z, i + 1, t)))
      && InStretch(z, i, local - OffsetOf(z, i)) && Wall(z, local - OffsetOf(z, i)) == local
  }

  lemma SkippedDate(z: Zone, local: int, late: bool)
    requires WellFormed(z) && Skipped(z, local, FirstFit(z, local))
    ensures DateCase(z, local, FirstFit(z, local), Date(z, local, late))
  {
    hide FirstFit, Stretch;
    var i := FirstFit(z, local);
    assert ChangeOk(z, i - 1) && (i < |z.changes| ==> ChangeOk(z, i));
    StretchIsUnique(z, if late then i else i - 1, Date(z, local, late));
  }

  lemma ShownDate(z: Zone, local: int, late: bool)
    requires WellFormed(z) && !Skipped(z, local, FirstFit(z, local))
    ensures DateCase(z, local, FirstFit(z, local), Date(z, local, late))
  {
    hide FirstFit, Stretch;
    var i := FirstFit(z, local);
    StretchIsUnique(z, i, local - OffsetOf(z, i));
    if Repeated(z, local, i) && late {
      assert ChangeOk(z, i) && (i + 1 < |z.changes| ==> ChangeOk(z, i + 1));
      StretchIsUnique(z, i + 1, Date(z, local, late));
    }
  }

  lemma DateCases(z: Zone, local: int, late: bool)
    requires WellFormed(z)
    ensures DateCase(z, local, FirstFit(z, local), Date(z, local, late))
  {
    if Skipped(z, local, FirstFit(z, local)) {
      SkippedDate(z, local, late);
    } else {
      ShownDate(z, local, late);
    }
  }

  /** Before a change, the clock has not yet shown the time it shows as it reaches the change. */
  lemma {:induction false} WallBeforeChange(z: Zone, s: Instant, j: nat)
    requires WellFormed(z) && j < |z.changes| && s < z.changes[j].at
    ensures Wall(z, s) < z.changes[j].at + OffsetOf(z, j)
  {
    if j > 0 && s < z.changes[j - 1].at {
      WallBeforeChange(z, s, j - 1);
      assert ChangeOk(z, j - 1) && ChangeOk(z, j);
    } else {
      StretchIsUnique(z, j, s);
    }
  }

  /** The clock never again shows a time 12 hours before one it has shown. */
  lemma WallNeverFarBehind(z: Zone, s: Instant, t: Instant)
    requires WellFormed(z) && s <= t
    ensures Wall(z, s) < Wall(z, t) + 12 * HOUR
  {
    var j := Stretch(z, t, |z.changes|);
    if j > 0 && s < z.changes[j - 1].at {
      WallBeforeChange(z, s, j - 1);
      assert ChangeOk(z, j - 1);
    } else {
      StretchIsUnique(z, j, s);
    }
  }

  /** Each change comes later on the clock before it than the last did. */
  lemma {:induction false} ChangesShowLater(z: Zone, i: nat, j: nat)
    requires WellFormed(z) && i < j < |z.changes|
    ensures z.changes[j].at + OffsetOf(z, j) > z.changes[i].at + OffsetOf(z, i) + 12 * HOUR
    decreases j - i
  {
    assert ChangeOk(z, j) && ChangeOk(z, j - 1);
    if i < j - 1 {
      ChangesShowLater(z, i, j - 1);
    }
  }

  /** A local time is shown at no more than two instants, in neighbouring stretches, and at none when it is skipped. */
  lemma ShownAtMostTwice(z: Zone, local: int, t: Instant)
    requires WellFormed(z) && Wall(z, t) == local
    ensures var i := FirstFit(z, local);
            !Skipped(z, local, i)
            && (t == local - OffsetOf(z, i) || (Repeated(z, local, i) && t == local - OffsetOf(z, i + 1)))
  {
    hide FirstFit, Stretch;
    var i := FirstFit(z, local);
    var k := Stretch(z, t, |z.changes|);
    if k > i {
      assert ChangeOk(z, k - 1) && (i > 0 ==> ChangeOk(z, i - 1)) && ChangeOk(z, i);
      if k > i + 1 {
        ChangesShowLater(z, i, k - 1);
      }
    }
  }

  /**
   What the library promises of its answer: when some instant shows the local
   time the answer is such an instant, and each such instant is an answer it may give.
   */
  lemma DateShowsLocal(z: Zone, local: int, late: bool, t: Instant)
    requires WellFormed(z) && Wall(z, t) == local
    ensures Wall(z, Date(z, local, late)) == local
    ensures t == Date(z, local, false) || t == Date(z, local, true)
  {
    hide FirstFit, Stretch;
    DateCases(z, local, late);
    ShownAtMostTwice(z, local, t);
  }
}
