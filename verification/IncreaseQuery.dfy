/**
 The increase of a counter over time: the query's rows in play, each row's step
 from the one before it, and the sums of the steps by time bucket. Sums are
 taken before they are rounded.
 */
module IncreaseQuery {
  import opened Wrappers

  /** A reading of one series. A missing value is a reading without a number. */
  datatype Row = Row(id: int, time: int, value: Option<real>)

  predicate Earlier(a: Row, b: Row) {
    a.time < b.time || (a.time == b.time && a.id < b.id)
  }

  /** A series' readings in order of time, those of the same time in order of ID. */
  ghost predicate Sorted(rows: seq<Row>) {
    forall i, j :: 0 <= i < j < |rows| ==> Earlier(rows[i], rows[j])
  }

  predicate InRange(row: Row, from: int, to: int) {
    from <= row.time <= to
  }

  // ---------- Buckets ----------

  /** A bucket's label: a day, and the hour, minute and second it starts at. */
  datatype Civil = Civil(day: int, hour: int, minute: int, second: int)

  datatype Interval = TenSeconds | OneMinute | FiveMinutes | FifteenMinutes | OneHour | OneDay

  function Fields(time: int): Civil {
    var seconds := time / 1_000_000_000;
    Civil(seconds / 86_400, seconds / 3_600 % 24, seconds / 60 % 60, seconds % 60)
  }

  function TimeBucket(interval: Interval, time: int): Civil {
    var f := Fields(time);
    match interval
    case TenSeconds => f.(second := f.second / 10 * 10)
    case OneMinute => f.(second := 0)
    case FiveMinutes => f.(minute := f.minute / 5 * 5, second := 0)
    case FifteenMinutes => f.(minute := f.minute / 15 * 15, second := 0)
    case OneHour => f.(minute := 0, second := 0)
    case OneDay => f.(hour := 0, minute := 0, second := 0)
  }

  function Width(interval: Interval): (seconds: nat)
    ensures seconds > 0
  {
    match interval
    case TenSeconds => 10
    case OneMinute => 60
    case FiveMinutes => 300
    case FifteenMinutes => 900
    case OneHour => 3_600
    case OneDay => 86_400
  }

  function StartOf(c: Civil): int {
    c.day * 86_400 + c.hour * 3_600 + c.minute * 60 + c.second
  }

  lemma FieldsAddUp(time: int)
    ensures var f := Fields(time);
            0 <= f.hour < 24 && 0 <= f.minute < 60 && 0 <= f.second < 60 && StartOf(f) == time / 1_000_000_000
  {
    var seconds := time / 1_000_000_000;
    var minutes := seconds / 60;
    var hours := minutes / 60;
    assert seconds == minutes * 60 + seconds % 60 && minutes == hours * 60 + minutes % 60;
    assert seconds / 3_600 == hours;
    assert seconds / 86_400 == hours / 24;
  }

  /** A bucket starts at the last multiple of its width. */
  lemma BucketsAreEven(interval: Interval, time: int) returns (n: int)
    ensures var start := StartOf(TimeBucket(interval, time));
            start == n * Width(interval) && start <= time / 1_000_000_000 < start + Width(interval)
  {
    FieldsAddUp(time);
    var f := Fields(time);
    hide Fields;
    match interval
    case TenSeconds => n := f.day * 8_640 + f.hour * 360 + f.minute * 6 + f.second / 10;
    case OneMinute => n := f.day * 1_440 + f.hour * 60 + f.minute;
    case FiveMinutes => n := f.day * 288 + f.hour * 12 + f.minute / 5;
    case FifteenMinutes => n := f.day * 96 + f.hour * 4 + f.minute / 15;
    case OneHour => n := f.day * 24 + f.hour;
    case OneDay => n := f.day;
  }

  lemma ThreeFives(minute: int)
    ensures minute / 15 == minute / 5 / 3
  {
    var fives := minute / 5;
    assert minute == 15 * (fives / 3) + 5 * (fives % 3) + minute % 5;
  }

  /** Which coarse bucket a reading is in depends only on its fine one. */
  lemma CoarseFollowsFine(coarse: Interval, fine: Interval, s: int, t: int)
    requires Width(fine) <= Width(coarse) && TimeBucket(fine, s) == TimeBucket(fine, t)
    ensures TimeBucket(coarse, s) == TimeBucket(coarse, t)
  {
    var (f, g) := (Fields(s), Fields(t));
    hide Fields;
    ThreeFives(f.minute);
    ThreeFives(g.minute);
  }

  // ---------- The query ----------

  function RowsInRange(rows: seq<Row>, from: int, to: int): seq<Row> {
    if rows == [] then []
    else RowsInRange(rows[..|rows| - 1], from, to)
         + if InRange(rows[|rows| - 1], from, to) then [rows[|rows| - 1]] else []
  }

  /** The last reading before the range, if there is one. */
  function Seed(rows: seq<Row>, from: int): seq<Row> {
    if rows == [] then []
    else if rows[|rows| - 1].time < from then [rows[|rows| - 1]]
    else Seed(rows[..|rows| - 1], from)
  }

  function InPlay(rows: seq<Row>, from: int, to: int): seq<Row> {
    Seed(rows, from) + RowsInRange(rows, from, to)
  }

  function Last(rows: seq<Row>): Option<Row> {
    if rows == [] then None else Some(rows[|rows| - 1])
  }

  /** A row's step from the one before it, unless either has no number or there is none before it. */
  function Step(previous: Option<Row>, row: Row): Option<real> {
    if previous.Some? && previous.value.value.Some? && row.value.Some? then
      Some(row.value.value - previous.value.value.value)
    else None
  }

  /** What a row adds. A counter that has gone down was reset, and its value is what it has counted since. */
  function Contribution(previous: Option<Row>, row: Row): real {
    match Step(previous, row)
    case None => 0.0
    case Some(step) => if step < 0.0 then row.value.GetOr(0.0) else step
  }

  /**
   A row adds what the counter has risen by since the one before, or its whole value after a reset,
   and nothing without both numbers.
   */
  lemma RowsAddTheirRise(previous: Option<Row>, row: Row)
    ensures match (if previous.Some? then previous.value.value else None, row.value)
            case (Some(before), Some(now)) => Contribution(previous, row) == if now >= before then now - before else now
            case _ => Contribution(previous, row) == 0.0
  {
  }

  /** Sums by bucket, the buckets in the order they first came up. */
  type Groups = seq<(Civil, real)>

  function AddTo(groups: Groups, bucket: Civil, x: real): Groups {
    if groups == [] then [(bucket, x)]
    else if groups[0].0 == bucket then [(bucket, groups[0].1 + x)] + groups[1..]
    else [groups[0]] + AddTo(groups[1..], bucket, x)
  }

  /** The rows in play in turn: each is compared with the one before it, and those in the range are summed. */
  function Grouped(inPlay: seq<Row>, from: int, to: int, bucket: int -> Civil): Groups {
    if inPlay == [] then []
    else
      var (front, row) := (inPlay[..|inPlay| - 1], inPlay[|inPlay| - 1]);
      var groups := Grouped(front, from, to, bucket);
      if InRange(row, from, to) then AddTo(groups, bucket(row.time), Contribution(Last(front), row)) else groups
  }

  function Increase(rows: seq<Row>, from: int, to: int, bucket: int -> Civil): Groups {
    Grouped(InPlay(rows, from, to), from, to, bucket)
  }

  function Total(groups: Groups): real {
    if groups == [] then 0.0 else groups[0].1 + Total(groups[1..])
  }

  /** The sum shown for a bucket, nothing being shown for one without readings. */
  function Shown(groups: Groups, bucket: Civil): real {
    if groups == [] then 0.0 else (if groups[0].0 == bucket then groups[0].1 else 0.0) + Shown(groups[1..], bucket)
  }

  // ---------- What it should give ----------

  /** Every reading's step from the one before it in the whole table, summed over those picked. */
  ghost function StepSum(rows: seq<Row>, picked: Row -> bool): real {
    if rows == [] then 0.0
    else
      var (front, row) := (rows[..|rows| - 1], rows[|rows| - 1]);
      StepSum(front, picked) + if picked(row) then Contribution(Last(front), row) else 0.0
  }

  ghost function Between(from: int, to: int): Row -> bool {
    row => InRange(row, from, to)
  }

  // ---------- The rows in play are enough ----------

  lemma SortedFront(rows: seq<Row>)
    requires Sorted(rows) && rows != []
    ensures Sorted(rows[..|rows| - 1])
    ensures forall i :: 0 <= i < |rows| - 1 ==> rows[i].time <= rows[|rows| - 1].time
  {
  }

  lemma {:induction false} NoneInRange(rows: seq<Row>, from: int, to: int)
    requires forall i :: 0 <= i < |rows| ==> !InRange(rows[i], from, to)
    ensures RowsInRange(rows, from, to) == []
  {
    if rows != [] {
      NoneInRange(rows[..|rows| - 1], from, to);
    }
  }

  /** The row before one in the range is the row before it in play. */
  lemma LastInPlay(rows: seq<Row>, from: int, to: int)
    requires Sorted(rows) && forall i :: 0 <= i < |rows| ==> rows[i].time <= to
    ensures Last(InPlay(rows, from, to)) == Last(rows)
  {
    if rows != [] && rows[|rows| - 1].time < from {
      assert forall i :: 0 <= i < |rows| ==> !InRange(rows[i], from, to) by {
        SortedFront(rows);
      }
      NoneInRange(rows, from, to);
    }
  }

  lemma InPlayMore(rows: seq<Row>, from: int, to: int)
    requires Sorted(rows) && rows != [] && rows[|rows| - 1].time >= from
    ensures InPlay(rows, from, to) ==
              InPlay(rows[..|rows| - 1], from, to) + if rows[|rows| - 1].time <= to then [rows[|rows| - 1]] else []
  {
  }

  lemma {:induction false} NothingGrouped(inPlay: seq<Row>, from: int, to: int, bucket: int -> Civil)
    requires forall i :: 0 <= i < |inPlay| ==> !InRange(inPlay[i], from, to)
    ensures Grouped(inPlay, from, to, bucket) == []
  {
    if inPlay != [] {
      NothingGrouped(inPlay[..|inPlay| - 1], from, to, bucket);
    }
  }

  lemma {:induction false} TotalAdded(groups: Groups, bucket: Civil, x: real)
    ensures Total(AddTo(groups, bucket, x)) == Total(groups) + x
  {
    if groups != [] && groups[0].0 != bucket {
      TotalAdded(groups[1..], bucket, x);
    }
  }

  lemma {:induction false} ShownAdded(groups: Groups, bucket: Civil, x: real, b: Civil)
    ensures Shown(AddTo(groups, bucket, x), b) == Shown(groups, b) + if bucket == b then x else 0.0
  {
    if groups != [] && groups[0].0 != bucket {
      ShownAdded(groups[1..], bucket, x, b);
    }
  }

  lemma {:induction false} NothingSummed(rows: seq<Row>, picked: Row -> bool)
    requires forall i :: 0 <= i < |rows| ==> !picked(rows[i])
    ensures StepSum(rows, picked) == 0.0
  {
    if rows != [] {
      NothingSummed(rows[..|rows| - 1], picked);
    }
  }

  ghost function InBucket(from: int, to: int, bucket: int -> Civil, b: Civil): Row -> bool {
    row => InRange(row, from, to) && bucket(row.time) == b
  }

  /** Each bucket shows the steps of the readings in it, whatever the rest of the table holds. */
  lemma {:induction false} BucketShowsItsSteps(rows: seq<Row>, from: int, to: int, bucket: int -> Civil, b: Civil)
    requires Sorted(rows)
    ensures Shown(Increase(rows, from, to, bucket), b) == StepSum(rows, InBucket(from, to, bucket, b))
  {
    if rows != [] {
      var (front, row) := (rows[..|rows| - 1], rows[|rows| - 1]);
      SortedFront(rows);
      if row.time < from {
        NoneInRange(rows, from, to);
        NothingGrouped(InPlay(rows, from, to), from, to, bucket);
        NothingSummed(rows, InBucket(from, to, bucket, b));
      } else {
        BucketShowsItsSteps(front, from, to, bucket, b);
        InPlayMore(rows, from, to);
        if row.time <= to {
          LastInPlay(front, from, to);
          var inPlay := InPlay(rows, from, to);
          assert inPlay[..|inPlay| - 1] == InPlay(front, from, to);
          ShownAdded(Grouped(InPlay(front, from, to), from, to, bucket), bucket(row.time),
                     Contribution(Last(front), row), b);
        } else {
          assert InPlay(rows, from, to) == InPlay(front, from, to);
        }
      }
    }
  }

  /** Whatever the buckets, they add up to the steps of the readings in the range. */
  lemma {:induction false} TotalIgnoresBuckets(rows: seq<Row>, from: int, to: int, bucket: int -> Civil)
    requires Sorted(rows)
    ensures Total(Increase(rows, from, to, bucket)) == StepSum(rows, Between(from, to))
  {
    if rows != [] {
      var (front, row) := (rows[..|rows| - 1], rows[|rows| - 1]);
      SortedFront(rows);
      if row.time < from {
        NoneInRange(rows, from, to);
        NothingGrouped(InPlay(rows, from, to), from, to, bucket);
        NothingSummed(rows, Between(from, to));
      } else {
        TotalIgnoresBuckets(front, from, to, bucket);
        InPlayMore(rows, from, to);
        if row.time <= to {
          LastInPlay(front, from, to);
          var inPlay := InPlay(rows, from, to);
          assert inPlay[..|inPlay| - 1] == InPlay(front, from, to);
          TotalAdded(Grouped(InPlay(front, from, to), from, to, bucket), bucket(row.time),
                     Contribution(Last(front), row));
        } else {
          assert InPlay(rows, from, to) == InPlay(front, from, to);
        }
      }
    }
  }

  // ---------- Adjacent ranges, and counters that only go up ----------

  lemma {:induction false} StepsAdd(rows: seq<Row>, from: int, middle: int, to: int)
    requires from <= middle + 1 && middle <= to
    ensures StepSum(rows, Between(from, middle)) + StepSum(rows, Between(middle + 1, to)) ==
              StepSum(rows, Between(from, to))
  {
    if rows != [] {
      StepsAdd(rows[..|rows| - 1], from, middle, to);
    }
  }

  /** Increases over adjacent ranges add up, each range being seeded with the last reading before it. */
  lemma AdjacentRangesAdd(rows: seq<Row>, from: int, middle: int, to: int, a: int -> Civil, b: int -> Civil,
                          c: int -> Civil)
    requires Sorted(rows) && from <= middle + 1 && middle <= to
    ensures Total(Increase(rows, from, middle, a)) + Total(Increase(rows, middle + 1, to, b)) ==
              Total(Increase(rows, from, to, c))
  {
    TotalIgnoresBuckets(rows, from, middle, a);
    TotalIgnoresBuckets(rows, middle + 1, to, b);
    TotalIgnoresBuckets(rows, from, to, c);
    StepsAdd(rows, from, middle, to);
  }

  ghost predicate AllNumbers(rows: seq<Row>) {
    forall i :: 0 <= i < |rows| ==> rows[i].value.Some?
  }

  /** What the counter showed before each of its resets. */
  ghost function ResetFrom(rows: seq<Row>): real
    requires AllNumbers(rows)
  {
    if |rows| < 2 then 0.0
    else
      var (front, last, previous) := (rows[..|rows| - 1], rows[|rows| - 1].value.value, rows[|rows| - 2].value.value);
      ResetFrom(front) + if last < previous then previous else 0.0
  }

  /** Rows of which only the first may lie before the range. */
  lemma {:induction false} GroupedTelescopes(inPlay: seq<Row>, from: int, to: int, bucket: int -> Civil)
    requires inPlay != [] && AllNumbers(inPlay)
    requires forall i :: 0 < i < |inPlay| ==> InRange(inPlay[i], from, to)
    ensures Total(Grouped(inPlay, from, to, bucket)) ==
              inPlay[|inPlay| - 1].value.value - inPlay[0].value.value + ResetFrom(inPlay)
  {
    var (front, row) := (inPlay[..|inPlay| - 1], inPlay[|inPlay| - 1]);
    if front != [] {
      GroupedTelescopes(front, from, to, bucket);
      TotalAdded(Grouped(front, from, to, bucket), bucket(row.time), Contribution(Last(front), row));
    } else if InRange(row, from, to) {
      assert Grouped(front, from, to, bucket) == [];
      TotalAdded([], bucket(row.time), Contribution(None, row));
    } else {
      assert Grouped(front, from, to, bucket) == [];
    }
  }

  lemma {:induction false} RangeHolds(rows: seq<Row>, from: int, to: int)
    ensures forall i :: 0 <= i < |RowsInRange(rows, from, to)| ==> InRange(RowsInRange(rows, from, to)[i], from, to)
    ensures |Seed(rows, from)| <= 1
  {
    if rows != [] {
      RangeHolds(rows[..|rows| - 1], from, to);
    }
  }

  /**
   The increase is the last reading in play less the first, which is the seed if
   there is one, and nothing counted before a reset is lost.
   */
  lemma IncreaseTelescopes(rows: seq<Row>, from: int, to: int, bucket: int -> Civil)
    requires InPlay(rows, from, to) != [] && AllNumbers(InPlay(rows, from, to))
    ensures var inPlay := InPlay(rows, from, to);
            Total(Increase(rows, from, to, bucket)) ==
              inPlay[|inPlay| - 1].value.value - inPlay[0].value.value + ResetFrom(inPlay)
  {
    RangeHolds(rows, from, to);
    GroupedTelescopes(InPlay(rows, from, to), from, to, bucket);
  }

  /** Without a reset there is nothing to add. */
  lemma {:induction false} NeverReset(rows: seq<Row>)
    requires AllNumbers(rows) && forall i :: 0 <= i < |rows| - 1 ==> rows[i].value.value <= rows[i + 1].value.value
    ensures ResetFrom(rows) == 0.0
  {
    if |rows| >= 2 {
      NeverReset(rows[..|rows| - 1]);
    }
  }
}
