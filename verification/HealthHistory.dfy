/**
 The health history of sensors: which status was last known at a time, and the
 cleanup that replaces old rows by one checkpoint for each sensor.
 */
module HealthHistory {
  import opened Wrappers

  type Status = string

  /** Times are in whole seconds, to which the queries truncate what they compare. */
  datatype Row = Row(sensor: int, status: Status, at: int)

  type Rows = map<int, Row>

  /** Row IDs are handed out in order and never used again. */
  datatype Table = Table(rows: Rows, nextId: int)

  ghost predicate TableOk(t: Table) {
    forall id :: id in t.rows ==> id < t.nextId
  }

  /** Of two rows the later recorded comes after, and of those recorded together the one with the higher ID. */
  predicate NotAfter(rows: Rows, i: int, j: int)
    requires i in rows && j in rows
  {
    rows[i].at < rows[j].at || (rows[i].at == rows[j].at && i <= j)
  }

  predicate Upto(rows: Rows, sensor: int, time: int, id: int) {
    id in rows && rows[id].sensor == sensor && rows[id].at <= time
  }

  ghost predicate IsLast(rows: Rows, sensor: int, time: int, id: int) {
    Upto(rows, sensor, time, id) && forall other :: Upto(rows, sensor, time, other) ==> NotAfter(rows, other, id)
  }

  ghost predicate Known(rows: Rows, sensor: int, time: int) {
    exists id :: Upto(rows, sensor, time, id)
  }

  /** The last known status of a sensor at a time. */
  ghost function StatusAt(rows: Rows, sensor: int, time: int): Option<Status> {
    if exists id :: IsLast(rows, sensor, time, id) then
      var id :| IsLast(rows, sensor, time, id);
      Some(rows[id].status)
    else None
  }

  lemma LastIsUnique(rows: Rows, sensor: int, time: int, i: int, j: int)
    requires IsLast(rows, sensor, time, i) && IsLast(rows, sensor, time, j)
    ensures i == j
  {
  }

  lemma StatusOfLast(rows: Rows, sensor: int, time: int, id: int)
    requires IsLast(rows, sensor, time, id)
    ensures StatusAt(rows, sensor, time) == Some(rows[id].status)
  {
    forall other | IsLast(rows, sensor, time, other) ensures other == id {
      LastIsUnique(rows, sensor, time, other, id);
    }
  }

  lemma {:induction false} LastAmong(rows: Rows, sensor: int, time: int, ids: set<int>) returns (last: int)
    requires exists id :: id in ids && Upto(rows, sensor, time, id)
    ensures last in ids && Upto(rows, sensor, time, last)
    ensures forall other :: other in ids && Upto(rows, sensor, time, other) ==> NotAfter(rows, other, last)
    decreases |ids|
  {
    var id :| id in ids && Upto(rows, sensor, time, id);
    var rest := ids - {id};
    last := id;
    if exists other :: other in rest && Upto(rows, sensor, time, other) {
      var best := LastAmong(rows, sensor, time, rest);
      if NotAfter(rows, id, best) {
        last := best;
      }
    }
  }

  /** A sensor with a row by the time has a status then, that of its last row. */
  lemma KnownHasLast(rows: Rows, sensor: int, time: int) returns (last: int)
    requires Known(rows, sensor, time)
    ensures IsLast(rows, sensor, time, last) && StatusAt(rows, sensor, time) == Some(rows[last].status)
  {
    last := LastAmong(rows, sensor, time, rows.Keys);
    StatusOfLast(rows, sensor, time, last);
  }

  // ---------- The cleanup ----------

  /** One new row for each of the statuses, recorded at the time given. */
  ghost predicate Adds(t: Table, t': Table, statuses: map<int, Status>, at: int) {
    && t.nextId <= t'.nextId
    && (forall id :: id in t.rows ==> id in t'.rows && t'.rows[id] == t.rows[id])
    && (forall id :: id in t'.rows && id !in t.rows ==> NewRow(t, t', statuses, at, id))
    && (forall i, j ::
          i in t'.rows && j in t'.rows && i !in t.rows && j !in t.rows && t'.rows[i].sensor == t'.rows[j].sensor ==>
            i == j)
    && (forall sensor ::
          sensor in statuses ==> exists id :: id in t'.rows && id !in t.rows && t'.rows[id].sensor == sensor)
  }

  ghost predicate NewRow(t: Table, t': Table, statuses: map<int, Status>, at: int, id: int)
    requires id in t'.rows
  {
    var row := t'.rows[id];
    t.nextId <= id < t'.nextId && row.sensor in statuses && row == Row(row.sensor, statuses[row.sensor], at)
  }

  /** The last status before the cutoff of every sensor that had one. */
  ghost predicate AreCheckpoints(rows: Rows, cutoff: int, statuses: map<int, Status>) {
    && (forall sensor :: sensor in statuses <==> Known(rows, sensor, cutoff - 1))
    && (forall sensor :: sensor in statuses ==> StatusAt(rows, sensor, cutoff - 1) == Some(statuses[sensor]))
  }

  predicate RecordedSince(rows: Rows, sensor: int, cutoff: int, id: int) {
    id in rows && rows[id].sensor == sensor && rows[id].at >= cutoff
  }

  /** The current status of every sensor that would be left without a row. */
  ghost predicate AreBackfill(rows: Rows, current: map<int, Option<Status>>, cutoff: int, statuses: map<int, Status>) {
    && (forall sensor :: sensor in statuses <==>
          sensor in current && current[sensor].Some? && forall id :: !RecordedSince(rows, sensor, cutoff, id))
    && (forall sensor :: sensor in statuses ==> current[sensor] == Some(statuses[sensor]))
  }

  function Since(rows: Rows, cutoff: int): Rows {
    map id | id in rows && rows[id].at >= cutoff :: rows[id]
  }

  ghost predicate Compacted(t: Table, t': Table, cutoff: int, current: map<int, Option<Status>>) {
    exists checkpointed, filled, checkpoints, backfill ::
      && AreCheckpoints(t.rows, cutoff, checkpoints) && Adds(t, checkpointed, checkpoints, cutoff)
      && AreBackfill(checkpointed.rows, current, cutoff, backfill) && Adds(checkpointed, filled, backfill, cutoff)
      && t' == Table(Since(filled.rows, cutoff), filled.nextId)
  }

  class SensorRepository {
    var rows: Rows
    var nextId: int
    /** The sensors, with their current status if they have one. */
    var current: map<int, Option<Status>>

    ghost function Contents(): Table
      reads this
    {
      Table(rows, nextId)
    }

    constructor (current: map<int, Option<Status>>)
      ensures TableOk(Contents()) && rows == map[] && this.current == current
    {
      rows, nextId, this.current := map[], 1, current;
    }

    method InsertAll(statuses: map<int, Status>, at: int)
      requires TableOk(Contents())
      modifies this`rows, this`nextId
      ensures TableOk(Contents()) && Adds(old(Contents()), Contents(), statuses, at)
    {
      var left := statuses.Keys;
      while left != {}
        invariant left <= statuses.Keys && TableOk(Contents())
        invariant Adds(old(Contents()), Contents(), statuses - left, at)
      {
        EmptyOrHasMember(left);
        var sensor :| sensor in left;
        OneMore(old(Contents()), Contents(), statuses, left, sensor, at);
        rows := rows[nextId := Row(sensor, statuses[sensor], at)];
        nextId := nextId + 1;
        left := left - {sensor};
      }
      assert statuses - {} == statuses;
    }

    /** The last status before the cutoff of each sensor that has one. */
    method LastBefore(cutoff: int) returns (statuses: map<int, Status>)
      ensures AreCheckpoints(rows, cutoff, statuses)
    {
      var last: map<int, int> := map[];
      var left := rows.Keys;
      while left != {}
        invariant left <= rows.Keys
        invariant forall sensor :: sensor in last <==> exists id :: id !in left && Upto(rows, sensor, cutoff - 1, id)
        invariant forall sensor :: sensor in last ==>
                    && last[sensor] !in left && Upto(rows, sensor, cutoff - 1, last[sensor])
                    && forall id ::
                         id !in left && Upto(rows, sensor, cutoff - 1, id) ==> NotAfter(rows, id, last[sensor])
      {
        EmptyOrHasMember(left);
        var id :| id in left;
        left := left - {id};
        var sensor := rows[id].sensor;
        if rows[id].at < cutoff && (sensor !in last || NotAfter(rows, last[sensor], id)) {
          last := last[sensor := id];
        }
      }
      forall sensor | sensor in last ensures StatusAt(rows, sensor, cutoff - 1) == Some(rows[last[sensor]].status) {
        StatusOfLast(rows, sensor, cutoff - 1, last[sensor]);
      }
      statuses := map sensor | sensor in last :: rows[last[sensor]].status;
      forall sensor | Known(rows, sensor, cutoff - 1) ensures sensor in statuses {
        var id :| Upto(rows, sensor, cutoff - 1, id);
        assert id !in left;
      }
      forall sensor | sensor in statuses ensures Known(rows, sensor, cutoff - 1) {
        assert Upto(rows, sensor, cutoff - 1, last[sensor]);
      }
    }

    method Latest(ids: set<int>) returns (latest: int)
      requires ids != {} && ids <= rows.Keys
      ensures latest in ids && forall id :: id in ids ==> NotAfter(rows, id, latest)
    {
      EmptyOrHasMember(ids);
      latest :| latest in ids;
      var left := ids - {latest};
      while left != {}
        invariant left < ids && latest in ids
        invariant forall id :: id in ids && id !in left ==> NotAfter(rows, id, latest)
      {
        EmptyOrHasMember(left);
        var id :| id in left;
        left := left - {id};
        if NotAfter(rows, latest, id) {
          latest := id;
        }
      }
    }

    /** The sensor's rows since a time and the last one before it, the latest first. */
    method GetSensorHealthHistoryById(sensor: int, since: int) returns (history: seq<int>)
      ensures forall id :: id in history ==> id in rows
      ensures IsWindow(rows, sensor, since, map id | id in history :: rows[id])
      ensures forall i, j ::
                0 <= i < j < |history| ==> history[i] != history[j] && NotAfter(rows, history[j], history[i])
    {
      var left := set id | id in rows && RecordedSince(rows, sensor, since, id);
      var before := set id | id in rows && Upto(rows, sensor, since - 1, id);
      if before != {} {
        var last := Latest(before);
        assert IsLast(rows, sensor, since - 1, last);
        left := left + {last};
      }
      ghost var all := left;
      history := [];
      while left != {}
        invariant left <= all <= rows.Keys
        invariant forall id :: id in history <==> id in all && id !in left
        invariant forall i, id :: 0 <= i < |history| && id in left ==> NotAfter(rows, id, history[i])
        invariant forall i, j ::
                    0 <= i < j < |history| ==> history[i] != history[j] && NotAfter(rows, history[j], history[i])
      {
        var next := Latest(left);
        left := left - {next};
        history := history + [next];
      }
    }

    /** A change of status is recorded, unless the sensor has none yet or it is no change. */
    method UpdateSensorHealthById(sensor: int, status: Status, at: int)
      requires TableOk(Contents())
      modifies this
      ensures TableOk(Contents())
      ensures var changes :=
                sensor in old(current) && old(current)[sensor].Some? && old(current)[sensor] != Some(status);
              Contents() == if changes then Table(old(rows)[old(nextId) := Row(sensor, status, at)], old(nextId) + 1)
              else old(Contents())
      ensures current == if sensor in old(current) then old(current)[sensor := Some(status)] else old(current)
    {
      if sensor in current {
        if current[sensor].Some? && current[sensor] != Some(status) {
          rows := rows[nextId := Row(sensor, status, at)];
          nextId := nextId + 1;
        }
        current := current[sensor := Some(status)];
      }
    }

    method DeleteHealthHistoryOlderThan(cutoff: int)
      requires TableOk(Contents())
      modifies this`rows, this`nextId
      ensures TableOk(Contents()) && Compacted(old(Contents()), Contents(), cutoff, current)
    {
      var checkpoints := LastBefore(cutoff);
      InsertAll(checkpoints, cutoff);
      ghost var checkpointed := Contents();
      var recorded := set id | id in rows && rows[id].at >= cutoff :: rows[id].sensor;
      var backfill :=
        map sensor | sensor in current && current[sensor].Some? && sensor !in recorded :: current[sensor].value;
      assert AreBackfill(rows, current, cutoff, backfill) by {
        forall sensor ensures sensor in recorded <==> exists id :: RecordedSince(rows, sensor, cutoff, id) {
          if sensor in recorded {
            var id :| id in rows && rows[id].at >= cutoff && rows[id].sensor == sensor;
            assert RecordedSince(rows, sensor, cutoff, id);
          }
        }
      }
      InsertAll(backfill, cutoff);
      ghost var filled := Contents();
      rows := Since(rows, cutoff);
      assert Adds(checkpointed, filled, backfill, cutoff);
    }
  }

  lemma OneMore(t: Table, t': Table, statuses: map<int, Status>, left: set<int>, sensor: int, at: int)
    requires TableOk(t') && Adds(t, t', statuses - left, at) && sensor in left && left <= statuses.Keys
    ensures Adds(t, Table(t'.rows[t'.nextId := Row(sensor, statuses[sensor], at)], t'.nextId + 1),
                 statuses - (left - {sensor}), at)
  {
    var more := Table(t'.rows[t'.nextId := Row(sensor, statuses[sensor], at)], t'.nextId + 1);
    forall other | other in statuses - (left - {sensor})
      ensures exists id :: id in more.rows && id !in t.rows && more.rows[id].sensor == other
    {
      if other == sensor {
        assert more.rows[t'.nextId].sensor == sensor;
        assert t'.nextId !in t.rows;
      } else {
        assert other in statuses - left;
        var id :| id in t'.rows && id !in t.rows && t'.rows[id].sensor == other;
        assert more.rows[id].sensor == other;
      }
    }
    forall id | id in t'.rows && id !in t.rows
      ensures t'.rows[id].sensor != sensor && NewRow(t, more, statuses - (left - {sensor}), at, id)
    {
      assert NewRow(t, t', statuses - left, at, id);
    }
  }

  // ---------- What a cleanup preserves ----------

  ghost predicate HasHistory(rows: Rows, sensor: int) {
    exists id :: id in rows && rows[id].sensor == sensor
  }

  /** A sensor's rows after a cleanup: those since the cutoff, and a checkpoint in place of any older ones. */
  ghost predicate RowsKept(t: Table, t': Table, sensor: int, cutoff: int, checkpoint: int) {
    && t.nextId <= checkpoint
    && (forall id :: id in t'.rows && t'.rows[id].sensor == sensor ==>
          (id in t.rows && t.rows[id].at >= cutoff && t'.rows[id] == t.rows[id])
          || (id == checkpoint && Known(t.rows, sensor, cutoff - 1)))
    && (forall id :: RecordedSince(t.rows, sensor, cutoff, id) ==> id in t'.rows && t'.rows[id] == t.rows[id])
    && (Known(t.rows, sensor, cutoff - 1) ==>
          && checkpoint in t'.rows && t'.rows[checkpoint].sensor == sensor && t'.rows[checkpoint].at == cutoff
          && StatusAt(t.rows, sensor, cutoff - 1) == Some(t'.rows[checkpoint].status))
  }

  /** A sensor with older rows gets one checkpoint, and one with none gets nothing. */
  lemma CheckpointAdded(t: Table, checkpointed: Table, checkpoints: map<int, Status>, sensor: int, cutoff: int)
    returns (checkpoint: int)
    requires TableOk(t) && AreCheckpoints(t.rows, cutoff, checkpoints) && Adds(t, checkpointed, checkpoints, cutoff)
    requires HasHistory(t.rows, sensor)
    ensures t.nextId <= checkpoint
    ensures forall id :: id in t.rows ==> id in checkpointed.rows && checkpointed.rows[id] == t.rows[id]
    ensures forall id :: id in checkpointed.rows && checkpointed.rows[id].sensor == sensor ==>
              id in t.rows || (id == checkpoint && Known(t.rows, sensor, cutoff - 1))
    ensures Known(t.rows, sensor, cutoff - 1) ==>
              && checkpoint in checkpointed.rows && checkpointed.rows[checkpoint].sensor == sensor
              && checkpointed.rows[checkpoint].at == cutoff
              && StatusAt(t.rows, sensor, cutoff - 1) == Some(checkpointed.rows[checkpoint].status)
    ensures exists id :: RecordedSince(checkpointed.rows, sensor, cutoff, id)
  {
    hide StatusAt;
    checkpoint := t.nextId;
    if sensor in checkpoints {
      checkpoint :| checkpoint in checkpointed.rows && checkpoint !in t.rows
        && checkpointed.rows[checkpoint].sensor == sensor;
      assert NewRow(t, checkpointed, checkpoints, cutoff, checkpoint);
      assert RecordedSince(checkpointed.rows, sensor, cutoff, checkpoint);
    } else {
      hide Known;
      var id :| id in t.rows && t.rows[id].sensor == sensor;
      assert RecordedSince(checkpointed.rows, sensor, cutoff, id) by {
        OldRowsKnown(t.rows, sensor, cutoff, id);
      }
      forall other | other in checkpointed.rows && other !in t.rows ensures checkpointed.rows[other].sensor != sensor {
        assert NewRow(t, checkpointed, checkpoints, cutoff, other);
      }
    }
  }

  lemma OldRowsKnown(rows: Rows, sensor: int, cutoff: int, id: int)
    requires id in rows && rows[id].sensor == sensor
    ensures rows[id].at < cutoff ==> Known(rows, sensor, cutoff - 1)
  {
    if rows[id].at < cutoff {
      assert Upto(rows, sensor, cutoff - 1, id);
    }
  }

  lemma CleanupKeeps(t: Table, t': Table, sensor: int, cutoff: int, current: map<int, Option<Status>>)
    returns (checkpoint: int)
    requires TableOk(t) && Compacted(t, t', cutoff, current) && HasHistory(t.rows, sensor)
    ensures RowsKept(t, t', sensor, cutoff, checkpoint)
  {
    var checkpointed, filled, checkpoints, backfill :|
      && AreCheckpoints(t.rows, cutoff, checkpoints) && Adds(t, checkpointed, checkpoints, cutoff)
      && AreBackfill(checkpointed.rows, current, cutoff, backfill) && Adds(checkpointed, filled, backfill, cutoff)
      && t' == Table(Since(filled.rows, cutoff), filled.nextId);
    checkpoint := CheckpointAdded(t, checkpointed, checkpoints, sensor, cutoff);
    hide StatusAt, Known, AreCheckpoints, Adds, RowsKept, Since;
    NotBackfilled(checkpointed.rows, current, cutoff, backfill, sensor);
    hide AreBackfill;
    NotFilled(checkpointed, filled, backfill, sensor, cutoff);
    KeptRows(t, checkpointed, filled, sensor, cutoff, checkpoint);
  }

  lemma NotBackfilled(rows: Rows, current: map<int, Option<Status>>, cutoff: int, backfill: map<int, Status>,
                      sensor: int)
    requires AreBackfill(rows, current, cutoff, backfill) && exists id :: RecordedSince(rows, sensor, cutoff, id)
    ensures sensor !in backfill
  {
  }

  lemma KeptRows(t: Table, checkpointed: Table, filled: Table, sensor: int, cutoff: int, checkpoint: int)
    requires t.nextId <= checkpoint
    requires forall id :: id in t.rows ==> id in checkpointed.rows && checkpointed.rows[id] == t.rows[id]
    requires forall id :: id in checkpointed.rows && checkpointed.rows[id].sensor == sensor ==>
               id in t.rows || (id == checkpoint && Known(t.rows, sensor, cutoff - 1))
    requires Known(t.rows, sensor, cutoff - 1) ==>
               && checkpoint in checkpointed.rows && checkpointed.rows[checkpoint].sensor == sensor
               && checkpointed.rows[checkpoint].at == cutoff
               && StatusAt(t.rows, sensor, cutoff - 1) == Some(checkpointed.rows[checkpoint].status)
    requires forall id :: id in checkpointed.rows ==> id in filled.rows && filled.rows[id] == checkpointed.rows[id]
    requires forall id :: id in filled.rows && filled.rows[id].sensor == sensor ==> id in checkpointed.rows
    ensures RowsKept(t, Table(Since(filled.rows, cutoff), filled.nextId), sensor, cutoff, checkpoint)
  {
    hide Known, StatusAt;
  }

  lemma NotFilled(t: Table, filled: Table, backfill: map<int, Status>, sensor: int, cutoff: int)
    requires Adds(t, filled, backfill, cutoff) && sensor !in backfill
    ensures forall id :: id in t.rows ==> id in filled.rows && filled.rows[id] == t.rows[id]
    ensures forall id :: id in filled.rows && filled.rows[id].sensor == sensor ==> id in t.rows
  {
    forall id | id in filled.rows && filled.rows[id].sensor == sensor ensures id in t.rows {
      assert id !in t.rows ==> NewRow(t, filled, backfill, cutoff, id);
    }
  }

  /** Where a sensor has rows both before the cutoff and at it, the last of each say the same. */
  ghost predicate TieAgrees(rows: Rows, sensor: int, cutoff: int) {
    (exists id :: Upto(rows, sensor, cutoff, id) && rows[id].at == cutoff) && Known(rows, sensor, cutoff - 1) ==>
      StatusAt(rows, sensor, cutoff) == StatusAt(rows, sensor, cutoff - 1)
  }

  /** The checkpoint wins against the rows at the cutoff, having a higher ID. */
  lemma CheckpointIsLast(t: Table, t': Table, sensor: int, cutoff: int, checkpoint: int, time: int)
    requires TableOk(t) && RowsKept(t, t', sensor, cutoff, checkpoint) && time >= cutoff
             && Known(t.rows, sensor, cutoff - 1)
    requires forall id :: Upto(t.rows, sensor, time, id) ==> t.rows[id].at <= cutoff
    ensures StatusAt(t'.rows, sensor, time) == StatusAt(t.rows, sensor, cutoff - 1)
  {
    forall id | Upto(t'.rows, sensor, time, id) ensures NotAfter(t'.rows, id, checkpoint) {
      assert id in t.rows ==> Upto(t.rows, sensor, time, id);
    }
    assert IsLast(t'.rows, sensor, time, checkpoint);
    StatusOfLast(t'.rows, sensor, time, checkpoint);
  }

  /** A last row after the cutoff, or a last row of a sensor with none before it, stays the last. */
  lemma LastStays(t: Table, t': Table, sensor: int, cutoff: int, checkpoint: int, time: int, last: int)
    requires TableOk(t) && RowsKept(t, t', sensor, cutoff, checkpoint) && IsLast(t.rows, sensor, time, last)
    requires t.rows[last].at > cutoff || !Known(t.rows, sensor, cutoff - 1)
    ensures StatusAt(t'.rows, sensor, time) == StatusAt(t.rows, sensor, time)
  {
    hide StatusAt;
    OldRowsKnown(t.rows, sensor, cutoff, last);
    assert RecordedSince(t.rows, sensor, cutoff, last);
    forall id | Upto(t'.rows, sensor, time, id) ensures NotAfter(t'.rows, id, last) {
      assert id in t.rows && t'.rows[id] == t.rows[id] ==> Upto(t.rows, sensor, time, id);
    }
    assert IsLast(t'.rows, sensor, time, last);
    StatusOfLast(t'.rows, sensor, time, last);
    StatusOfLast(t.rows, sensor, time, last);
  }

  lemma StillUnknown(t: Table, t': Table, sensor: int, cutoff: int, checkpoint: int, time: int)
    requires RowsKept(t, t', sensor, cutoff, checkpoint) && !Known(t.rows, sensor, time) && time >= cutoff
    ensures StatusAt(t'.rows, sensor, time) == None && StatusAt(t.rows, sensor, time) == None
  {
    forall id ensures !Upto(t'.rows, sensor, time, id) {
      if Upto(t'.rows, sensor, time, id) {
        assert !Upto(t.rows, sensor, time, id);
        KnownLater(t.rows, sensor, cutoff - 1, time);
      }
    }
  }

  lemma KnownLater(rows: Rows, sensor: int, earlier: int, later: int)
    requires earlier <= later && Known(rows, sensor, earlier)
    ensures Known(rows, sensor, later)
  {
    var id :| Upto(rows, sensor, earlier, id);
    assert Upto(rows, sensor, later, id);
  }

  /**
   Until the sensor's first row after the cutoff the cleaned table shows the last status before it,
   where there is one.
   */
  lemma StatusAfterCleanup(t: Table, t': Table, sensor: int, cutoff: int, checkpoint: int, time: int)
    requires TableOk(t) && RowsKept(t, t', sensor, cutoff, checkpoint) && time >= cutoff
    requires TieAgrees(t.rows, sensor, cutoff)
    ensures StatusAt(t'.rows, sensor, time) == StatusAt(t.rows, sensor, time)
  {
    hide StatusAt, RowsKept;
    if !Known(t.rows, sensor, time) {
      StillUnknown(t, t', sensor, cutoff, checkpoint, time);
      return;
    }
    var last := KnownHasLast(t.rows, sensor, time);
    if t.rows[last].at > cutoff || !Known(t.rows, sensor, cutoff - 1) {
      LastStays(t, t', sensor, cutoff, checkpoint, time, last);
    } else {
      CheckpointIsLast(t, t', sensor, cutoff, checkpoint, time);
      if t.rows[last].at == cutoff {
        assert IsLast(t.rows, sensor, cutoff, last);
        StatusOfLast(t.rows, sensor, cutoff, last);
      } else {
        assert IsLast(t.rows, sensor, cutoff - 1, last);
        StatusOfLast(t.rows, sensor, cutoff - 1, last);
      }
    }
  }

  /**
   A cleanup leaves every status from the cutoff on as it was, for a sensor with
   any history, exactly if the sensor's rows at the cutoff, where it has them as well
   as older ones, end with the status the older ones end with.
   */
  lemma CleanupPreservesStatus(t: Table, t': Table, sensor: int, cutoff: int, current: map<int, Option<Status>>)
    requires TableOk(t) && Compacted(t, t', cutoff, current) && HasHistory(t.rows, sensor)
    ensures (forall time :: time >= cutoff ==> StatusAt(t'.rows, sensor, time) == StatusAt(t.rows, sensor, time)) <==>
            TieAgrees(t.rows, sensor, cutoff)
  {
    hide StatusAt, Compacted, RowsKept;
    var checkpoint := CleanupKeeps(t, t', sensor, cutoff, current);
    if TieAgrees(t.rows, sensor, cutoff) {
      forall time | time >= cutoff ensures StatusAt(t'.rows, sensor, time) == StatusAt(t.rows, sensor, time) {
        StatusAfterCleanup(t, t', sensor, cutoff, checkpoint, time);
      }
    } else {
      CheckpointIsLast(t, t', sensor, cutoff, checkpoint, cutoff);
    }
  }

  /** A sensor that turned bad in the very second of the cutoff is shown good again after the cleanup. */
  lemma TieBreaksStatus() returns (t: Table, t': Table)
    ensures TableOk(t) && Compacted(t, t', 10, map[])
    ensures StatusAt(t.rows, 1, 10) == Some("bad") && StatusAt(t'.rows, 1, 10) == Some("good")
  {
    t := Table(map[1 := Row(1, "good", 5), 2 := Row(1, "bad", 10)], 3);
    t' := Table(map[2 := Row(1, "bad", 10), 3 := Row(1, "good", 10)], 4);
    var checkpoints, backfill: map<int, Status> := map[1 := "good"], map[];
    var checkpointed := Table(t.rows[3 := Row(1, "good", 10)], 4);
    assert IsLast(t.rows, 1, 9, 1) && IsLast(t.rows, 1, 10, 2) && IsLast(t'.rows, 1, 10, 3);
    StatusOfLast(t.rows, 1, 9, 1);
    StatusOfLast(t.rows, 1, 10, 2);
    StatusOfLast(t'.rows, 1, 10, 3);
    hide StatusAt;
    assert AreCheckpoints(t.rows, 10, checkpoints) by {
      assert Upto(t.rows, 1, 9, 1);
    }
    assert NewRow(t, checkpointed, checkpoints, 10, 3);
    assert Adds(t, checkpointed, checkpoints, 10);
    assert AreBackfill(checkpointed.rows, map[], 10, backfill) && Adds(checkpointed, checkpointed, backfill, 10);
    assert Since(checkpointed.rows, 10) == t'.rows;
  }

  /** A sensor nothing was recorded of is shown with its current status from the cutoff on. */
  lemma BackfillSpeaks() returns (t: Table, t': Table)
    ensures TableOk(t) && Compacted(t, t', 10, map[1 := Some("good")])
    ensures StatusAt(t.rows, 1, 10) == None && StatusAt(t'.rows, 1, 10) == Some("good")
  {
    t, t' := Table(map[], 1), Table(map[1 := Row(1, "good", 10)], 2);
    var none, backfill: map<int, Status> := map[], map[1 := "good"];
    assert IsLast(t'.rows, 1, 10, 1);
    StatusOfLast(t'.rows, 1, 10, 1);
    NoStatus(t.rows, 1, 10);
    hide StatusAt;
    assert AreCheckpoints(t.rows, 10, none) && Adds(t, t, none, 10);
    assert AreBackfill(t.rows, map[1 := Some("good")], 10, backfill);
    assert NewRow(t, t', backfill, 10, 1);
    assert Adds(t, t', backfill, 10);
    assert Since(t'.rows, 10) == t'.rows;
  }

  // ---------- Recording and cleaning up by turns ----------

  /** The table; every row ever recorded, under the ID it was given; and the latest cutoff. */
  datatype State = State(table: Table, all: Rows, cutoff: int)

  datatype Event =
    | Record(row: Row)
    | Cleanup(cutoff: int, current: map<int, Option<Status>>)

  /** Cutoffs lie in the past, so nothing is recorded for a time before the latest, and they do not go back. */
  ghost predicate Step(s: State, s': State, e: Event) {
    match e
    case Record(row) =>
      && row.at >= s.cutoff
      && s' == State(Table(s.table.rows[s.table.nextId := row], s.table.nextId + 1), s.all[s.table.nextId := row],
                     s.cutoff)
    case Cleanup(cutoff, current) =>
      && cutoff >= s.cutoff && Compacted(s.table, s'.table, cutoff, current)
      && s'.all == s.all && s'.cutoff == cutoff
  }

  /** A table nothing has been cleaned from yet. */
  ghost predicate Init(s: State) {
    && TableOk(s.table) && s.all == s.table.rows
    && forall id :: id in s.all ==> s.all[id].at >= s.cutoff
  }

  ghost predicate History(states: seq<State>, events: seq<Event>) {
    && |states| == |events| + 1 && Init(states[0])
    && forall i :: 0 <= i < |events| ==> Step(states[i], states[i + 1], events[i])
  }

  /** The table says of the sensor, for any time since the latest cutoff, what all rows ever recorded say. */
  ghost predicate Agrees(s: State, sensor: int) {
    forall time :: time >= s.cutoff ==> StatusAt(s.table.rows, sensor, time) == StatusAt(s.all, sensor, time)
  }

  /** A sensor's rows in the table are those recorded since the cutoff, and maybe one a cleanup wrote at it. */
  ghost predicate Linked(s: State, sensor: int) {
    && TableOk(s.table) && (HasHistory(s.all, sensor) ==> HasHistory(s.table.rows, sensor))
    && (forall id :: id in s.all ==> id < s.table.nextId)
    && (forall id :: id in s.table.rows && s.table.rows[id].sensor == sensor ==> KeptOrCheckpoint(s, id))
    && (forall id :: RecordedSince(s.all, sensor, s.cutoff, id) ==> id in s.table.rows && s.table.rows[id] == s.all[id])
  }

  ghost predicate KeptOrCheckpoint(s: State, id: int)
    requires id in s.table.rows
  {
    && s.table.rows[id].at >= s.cutoff
    && if id in s.all then s.table.rows[id] == s.all[id] else s.table.rows[id].at == s.cutoff
  }

  /**
   The cleanup meets no two rows that its checkpoint could come between and, of a
   sensor no row was ever recorded for, does not write what is not on record.
   */
  ghost predicate Harmless(s: State, e: Event, sensor: int) {
    e.Cleanup? ==>
      if HasHistory(s.all, sensor) then e.cutoff == s.cutoff || TieAgrees(s.all, sensor, e.cutoff)
      else sensor !in e.current || e.current[sensor].None?
  }

  lemma CompactedOk(t: Table, t': Table, cutoff: int, current: map<int, Option<Status>>)
    requires TableOk(t) && Compacted(t, t', cutoff, current)
    ensures TableOk(t')
  {
    var checkpointed, filled, checkpoints, backfill :|
      && AreCheckpoints(t.rows, cutoff, checkpoints) && Adds(t, checkpointed, checkpoints, cutoff)
      && AreBackfill(checkpointed.rows, current, cutoff, backfill) && Adds(checkpointed, filled, backfill, cutoff)
      && t' == Table(Since(filled.rows, cutoff), filled.nextId);
    forall id | id in checkpointed.rows ensures id < checkpointed.nextId {
      assert id !in t.rows ==> NewRow(t, checkpointed, checkpoints, cutoff, id);
    }
    forall id | id in filled.rows ensures id < filled.nextId {
      assert id !in checkpointed.rows ==> NewRow(checkpointed, filled, backfill, cutoff, id);
    }
  }

  lemma KeptHistory(t: Table, t': Table, sensor: int, cutoff: int, checkpoint: int)
    requires RowsKept(t, t', sensor, cutoff, checkpoint) && HasHistory(t.rows, sensor)
    ensures HasHistory(t'.rows, sensor)
  {
    var id :| id in t.rows && t.rows[id].sensor == sensor;
    OldRowsKnown(t.rows, sensor, cutoff, id);
    if t.rows[id].at >= cutoff {
      assert RecordedSince(t.rows, sensor, cutoff, id);
    }
  }

  /** A status is known exactly when there is a row to take it from. */
  lemma KnownIffStatus(rows: Rows, sensor: int, time: int)
    ensures Known(rows, sensor, time) <==> StatusAt(rows, sensor, time).Some?
  {
    if Known(rows, sensor, time) {
      var last := KnownHasLast(rows, sensor, time);
    }
  }

  /** A sensor without a row is only backfilled, which it is if its current status is known. */
  lemma CleanupBackfills(t: Table, t': Table, sensor: int, cutoff: int, current: map<int, Option<Status>>)
    requires TableOk(t) && Compacted(t, t', cutoff, current) && !HasHistory(t.rows, sensor)
    ensures forall id :: id in t'.rows && t'.rows[id].sensor == sensor ==> t.nextId <= id && t'.rows[id].at == cutoff
    ensures HasHistory(t'.rows, sensor) <==> sensor in current && current[sensor].Some?
  {
    var checkpointed, filled, checkpoints, backfill :|
      && AreCheckpoints(t.rows, cutoff, checkpoints) && Adds(t, checkpointed, checkpoints, cutoff)
      && AreBackfill(checkpointed.rows, current, cutoff, backfill) && Adds(checkpointed, filled, backfill, cutoff)
      && t' == Table(Since(filled.rows, cutoff), filled.nextId);
    hide StatusAt;
    assert sensor !in checkpoints;
    forall id | id in checkpointed.rows ensures checkpointed.rows[id].sensor != sensor {
      assert id !in t.rows ==> NewRow(t, checkpointed, checkpoints, cutoff, id);
    }
    assert forall id :: !RecordedSince(checkpointed.rows, sensor, cutoff, id);
    forall id | id in filled.rows && filled.rows[id].sensor == sensor
      ensures NewRow(checkpointed, filled, backfill, cutoff, id) {}
    if sensor in backfill {
      var id :| id in filled.rows && id !in checkpointed.rows && filled.rows[id].sensor == sensor;
      assert NewRow(checkpointed, filled, backfill, cutoff, id);
      assert t'.rows[id].sensor == sensor;
    }
  }

  lemma CleanupLinks(s: State, s': State, sensor: int, e: Event)
    requires Linked(s, sensor) && e.Cleanup? && Step(s, s', e)
    ensures Linked(s', sensor)
  {
    hide StatusAt, Compacted, Known;
    CompactedOk(s.table, s'.table, e.cutoff, e.current);
    forall id | id in s.all ensures id < s'.table.nextId {
      IdsGrow(s.table, s'.table, e.cutoff, e.current);
    }
    if HasHistory(s.table.rows, sensor) {
      CleanupKeepsLinks(s, s', sensor, e);
    } else {
      CleanupBackfills(s.table, s'.table, sensor, e.cutoff, e.current);
      assert forall id :: !RecordedSince(s'.all, sensor, s'.cutoff, id);
    }
  }

  lemma CleanupKeepsLinks(s: State, s': State, sensor: int, e: Event)
    requires Linked(s, sensor) && e.Cleanup? && Step(s, s', e) && HasHistory(s.table.rows, sensor)
    ensures HasHistory(s'.table.rows, sensor)
    ensures forall id :: id in s'.table.rows && s'.table.rows[id].sensor == sensor ==> KeptOrCheckpoint(s', id)
    ensures forall id ::
              RecordedSince(s'.all, sensor, s'.cutoff, id) ==> id in s'.table.rows && s'.table.rows[id] == s'.all[id]
  {
    hide StatusAt, Compacted, Known;
    var checkpoint := CleanupKeeps(s.table, s'.table, sensor, e.cutoff, e.current);
    KeptHistory(s.table, s'.table, sensor, e.cutoff, checkpoint);
    forall id | id in s'.table.rows && s'.table.rows[id].sensor == sensor ensures KeptOrCheckpoint(s', id) {
      assert id in s.table.rows && s'.table.rows[id] == s.table.rows[id] ==> KeptOrCheckpoint(s, id);
    }
    forall id | RecordedSince(s'.all, sensor, s'.cutoff, id)
      ensures id in s'.table.rows && s'.table.rows[id] == s'.all[id]
    {
      assert RecordedSince(s.all, sensor, s.cutoff, id);
      assert RecordedSince(s.table.rows, sensor, e.cutoff, id);
    }
  }

  lemma IdsGrow(t: Table, t': Table, cutoff: int, current: map<int, Option<Status>>)
    requires Compacted(t, t', cutoff, current)
    ensures t.nextId <= t'.nextId
  {
  }

  lemma RecordLinks(s: State, s': State, sensor: int, e: Event)
    requires Linked(s, sensor) && e.Record? && Step(s, s', e)
    ensures Linked(s', sensor)
  {
    assert s'.table.rows[s.table.nextId] == s'.all[s.table.nextId] == e.row;
    if e.row.sensor != sensor && HasHistory(s'.all, sensor) {
      var recorded :| recorded in s'.all && s'.all[recorded].sensor == sensor;
      assert recorded in s.all && s.all[recorded].sensor == sensor;
      var id :| id in s.table.rows && s.table.rows[id].sensor == sensor;
      assert s'.table.rows[id].sensor == sensor;
    }
    forall id | id in s'.table.rows && s'.table.rows[id].sensor == sensor ensures KeptOrCheckpoint(s', id) {
      assert id != s.table.nextId ==> KeptOrCheckpoint(s, id);
    }
    forall id | RecordedSince(s'.all, sensor, s'.cutoff, id)
      ensures id in s'.table.rows && s'.table.rows[id] == s'.all[id]
    {
      assert id != s.table.nextId ==> RecordedSince(s.all, sensor, s.cutoff, id);
    }
  }

  /** The table has the ties that all rows ever recorded have, except at the latest cutoff, where it has none. */
  lemma SameTies(s: State, sensor: int, next: int)
    requires Linked(s, sensor) && Agrees(s, sensor) && s.cutoff <= next
    ensures TieAgrees(s.table.rows, sensor, next) <==> next == s.cutoff || TieAgrees(s.all, sensor, next)
  {
    var rows := s.table.rows;
    hide StatusAt;
    if next == s.cutoff {
      forall id | id in rows && rows[id].sensor == sensor ensures rows[id].at >= next {
        assert KeptOrCheckpoint(s, id);
      }
    } else {
      hide Known;
      KnownIffStatus(rows, sensor, next - 1);
      KnownIffStatus(s.all, sensor, next - 1);
      forall id
        ensures (Upto(rows, sensor, next, id) && rows[id].at == next) <==>
                  (Upto(s.all, sensor, next, id) && s.all[id].at == next)
      {
        assert id in rows && rows[id].sensor == sensor ==> KeptOrCheckpoint(s, id);
        assert Upto(s.all, sensor, next, id) && s.all[id].at == next ==> RecordedSince(s.all, sensor, s.cutoff, id);
      }
      assert StatusAt(rows, sensor, next) == StatusAt(s.all, sensor, next)
             && StatusAt(rows, sensor, next - 1) == StatusAt(s.all, sensor, next - 1);
    }
  }

  /** While the table agrees, a sensor with a row in it has one on record. */
  lemma RowsAreOnRecord(s: State, sensor: int)
    requires Linked(s, sensor) && Agrees(s, sensor)
    ensures HasHistory(s.table.rows, sensor) ==> HasHistory(s.all, sensor)
  {
    if id :| id in s.table.rows && s.table.rows[id].sensor == sensor {
      var time := s.table.rows[id].at;
      hide StatusAt;
      assert KeptOrCheckpoint(s, id) && Upto(s.table.rows, sensor, time, id);
      KnownIffStatus(s.table.rows, sensor, time);
      KnownIffStatus(s.all, sensor, time);
      assert StatusAt(s.table.rows, sensor, time) == StatusAt(s.all, sensor, time);
    }
  }

  lemma NoStatus(rows: Rows, sensor: int, time: int)
    requires !HasHistory(rows, sensor)
    ensures StatusAt(rows, sensor, time) == None
  {
  }

  lemma BackfillAgrees(s: State, s': State, sensor: int, e: Event)
    requires Linked(s, sensor) && Agrees(s, sensor) && e.Cleanup? && Step(s, s', e) && !HasHistory(s.all, sensor)
    ensures Agrees(s', sensor) <==> Harmless(s, e, sensor)
  {
    hide StatusAt, Compacted, TieAgrees;
    RowsAreOnRecord(s, sensor);
    CleanupBackfills(s.table, s'.table, sensor, e.cutoff, e.current);
    if HasHistory(s'.table.rows, sensor) {
      var id :| id in s'.table.rows && s'.table.rows[id].sensor == sensor;
      assert Upto(s'.table.rows, sensor, e.cutoff, id);
      KnownIffStatus(s'.table.rows, sensor, e.cutoff);
      NoStatus(s'.all, sensor, e.cutoff);
    } else {
      forall time ensures StatusAt(s'.table.rows, sensor, time) == StatusAt(s'.all, sensor, time) {
        NoStatus(s'.table.rows, sensor, time);
        NoStatus(s'.all, sensor, time);
      }
    }
  }

  lemma CleanupAgrees(s: State, s': State, sensor: int, e: Event)
    requires Linked(s, sensor) && Agrees(s, sensor) && e.Cleanup? && Step(s, s', e)
    ensures Agrees(s', sensor) <==> Harmless(s, e, sensor)
  {
    hide StatusAt, Compacted, TieAgrees;
    if HasHistory(s.all, sensor) {
      SameTies(s, sensor, e.cutoff);
      CleanupPreservesStatus(s.table, s'.table, sensor, e.cutoff, e.current);
      forall time | time >= e.cutoff ensures StatusAt(s.table.rows, sensor, time) == StatusAt(s'.all, sensor, time) {}
    } else {
      BackfillAgrees(s, s', sensor, e);
    }
  }

  lemma SameStatus(rows: Rows, rows': Rows, sensor: int, time: int)
    requires forall id :: Upto(rows, sensor, time, id) <==> Upto(rows', sensor, time, id)
    requires forall id :: Upto(rows, sensor, time, id) ==> id in rows' && rows'[id] == rows[id]
    ensures StatusAt(rows', sensor, time) == StatusAt(rows, sensor, time)
  {
    hide StatusAt;
    KnownIffStatus(rows, sensor, time);
    KnownIffStatus(rows', sensor, time);
    if Known(rows, sensor, time) {
      var last := KnownHasLast(rows, sensor, time);
      assert IsLast(rows', sensor, time, last);
      StatusOfLast(rows', sensor, time, last);
    } else {
      assert !Known(rows', sensor, time);
    }
  }

  /** A new row is the last, unless there is one for a later time. */
  lemma NewRowIsLast(rows: Rows, n: int, row: Row, time: int)
    requires (forall id :: id in rows ==> id < n) && row.at <= time
    ensures (forall id :: Upto(rows, row.sensor, time, id) ==> rows[id].at <= row.at) ==>
              StatusAt(rows[n := row], row.sensor, time) == Some(row.status)
    ensures (exists id :: Upto(rows, row.sensor, time, id) && rows[id].at > row.at) ==>
              StatusAt(rows[n := row], row.sensor, time) == StatusAt(rows, row.sensor, time)
  {
    hide StatusAt;
    var (rows', sensor) := (rows[n := row], row.sensor);
    forall id ensures Upto(rows', sensor, time, id) <==> Upto(rows, sensor, time, id) || id == n {}
    if forall id :: Upto(rows, sensor, time, id) ==> rows[id].at <= row.at {
      assert IsLast(rows', sensor, time, n);
      StatusOfLast(rows', sensor, time, n);
    } else {
      var later :| Upto(rows, sensor, time, later) && rows[later].at > row.at;
      var last := KnownHasLast(rows, sensor, time);
      assert NotAfter(rows, later, last);
      forall id | Upto(rows', sensor, time, id) ensures NotAfter(rows', id, last) {
        assert id != n ==> NotAfter(rows, id, last);
      }
      StatusOfLast(rows', sensor, time, last);
    }
  }

  lemma RecordAgrees(s: State, s': State, sensor: int, e: Event)
    requires Linked(s, sensor) && Agrees(s, sensor) && e.Record? && Step(s, s', e)
    ensures Agrees(s', sensor)
  {
    hide StatusAt;
    var (n, row) := (s.table.nextId, e.row);
    forall time | time >= s.cutoff ensures StatusAt(s'.table.rows, sensor, time) == StatusAt(s'.all, sensor, time) {
      assert StatusAt(s.table.rows, sensor, time) == StatusAt(s.all, sensor, time);
      if row.sensor == sensor && row.at <= time {
        NewRowIsLast(s.table.rows, n, row, time);
        NewRowIsLast(s.all, n, row, time);
        SameLaterRows(s, sensor, row.at, time);
      } else {
        SameStatus(s.table.rows, s'.table.rows, sensor, time);
        SameStatus(s.all, s'.all, sensor, time);
      }
    }
  }

  lemma SameLaterRows(s: State, sensor: int, at: int, time: int)
    requires Linked(s, sensor) && at >= s.cutoff
    ensures (exists id :: Upto(s.table.rows, sensor, time, id) && s.table.rows[id].at > at) <==>
            (exists id :: Upto(s.all, sensor, time, id) && s.all[id].at > at)
  {
    forall id
      ensures (Upto(s.table.rows, sensor, time, id) && s.table.rows[id].at > at) <==>
                (Upto(s.all, sensor, time, id) && s.all[id].at > at)
    {
      assert id in s.table.rows && s.table.rows[id].sensor == sensor ==> KeptOrCheckpoint(s, id);
      assert Upto(s.all, sensor, time, id) && s.all[id].at > at ==> RecordedSince(s.all, sensor, s.cutoff, id);
    }
  }

  lemma {:induction false} AlwaysLinked(states: seq<State>, events: seq<Event>, sensor: int, k: nat)
    requires History(states, events) && k < |states|
    ensures Linked(states[k], sensor)
  {
    hide Linked, Step, HasHistory, Init;
    if k == 0 {
      InitLinks(states[0], sensor);
    } else {
      AlwaysLinked(states, events, sensor, k - 1);
      if events[k - 1].Cleanup? {
        CleanupLinks(states[k - 1], states[k], sensor, events[k - 1]);
      } else {
        RecordLinks(states[k - 1], states[k], sensor, events[k - 1]);
      }
    }
  }

  lemma InitLinks(s: State, sensor: int)
    requires Init(s)
    ensures Linked(s, sensor) && Agrees(s, sensor)
  {
  }

  /**
   However rows are recorded and cleaned up by turns, the table always says of any
   sensor what all rows ever recorded say of the time since the latest cutoff, exactly
   if no cleanup so far met a tie it could break, or backfilled the sensor with a
   current status while it had no recorded row.
   */
  lemma {:induction false} CleanupsPreserveStatus(states: seq<State>, events: seq<Event>, sensor: int, k: nat)
    requires History(states, events) && k < |states|
    ensures (forall i :: 0 <= i <= k ==> Agrees(states[i], sensor)) <==>
              (forall i :: 0 <= i < k ==> Harmless(states[i], events[i], sensor))
  {
    hide Linked, Agrees, Harmless, Step, HasHistory, Init;
    if k == 0 {
      InitLinks(states[0], sensor);
    } else {
      CleanupsPreserveStatus(states, events, sensor, k - 1);
      if forall i :: 0 <= i <= k - 1 ==> Agrees(states[i], sensor) {
        AlwaysLinked(states, events, sensor, k - 1);
        NextAgrees(states[k - 1], states[k], sensor, events[k - 1]);
      }
    }
  }

  lemma NextAgrees(s: State, s': State, sensor: int, e: Event)
    requires Linked(s, sensor) && Agrees(s, sensor) && Step(s, s', e)
    ensures Agrees(s', sensor) <==> Harmless(s, e, sensor)
  {
    hide Linked, Agrees, Step;
    if e.Cleanup? {
      CleanupAgrees(s, s', sensor, e);
    } else {
      RecordAgrees(s, s', sensor, e);
    }
  }

  // ---------- Reading the history ----------

  /** What the query for a sensor's history since a time gives: its rows since then, and the last one before. */
  ghost predicate IsWindow(rows: Rows, sensor: int, since: int, window: Rows) {
    && (forall id :: id in window <==> RecordedSince(rows, sensor, since, id) || IsLast(rows, sensor, since - 1, id))
    && (forall id :: id in window ==> window[id] == rows[id])
  }

  /** The window tells the sensor's status at every time since, as the whole table does. */
  lemma WindowShowsStatus(rows: Rows, sensor: int, since: int, window: Rows, time: int)
    requires IsWindow(rows, sensor, since, window) && time >= since
    ensures StatusAt(window, sensor, time) == StatusAt(rows, sensor, time)
  {
    hide StatusAt;
    if Known(rows, sensor, time) {
      var last := KnownHasLast(rows, sensor, time);
      if rows[last].at >= since {
        assert RecordedSince(rows, sensor, since, last);
      } else {
        assert IsLast(rows, sensor, since - 1, last);
      }
      forall id | Upto(window, sensor, time, id) ensures NotAfter(window, id, last) {
        assert Upto(rows, sensor, time, id);
      }
      assert IsLast(window, sensor, time, last);
      StatusOfLast(window, sensor, time, last);
    } else {
      forall id ensures !Upto(window, sensor, time, id) {
        assert !Upto(rows, sensor, time, id);
      }
      KnownIffStatus(rows, sensor, time);
      KnownIffStatus(window, sensor, time);
    }
  }
}
