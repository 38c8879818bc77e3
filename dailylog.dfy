/**
 * The sheet that lists and edits one day's logs (`DailyStudyLogView`): the
 * day's logs of the listed materials, the buttons that add a log for the
 * day, the buttons that adjust a log by one step, and swipe-to-delete.
 */
module DailyLog {
  import opened Prelude
  import opened Calendar
  import opened Models
  import opened Persistence

  /** `fetchLogs`: the stored logs of day `day` that belong to one of the materials `ids`, in stored order. */
  function ShownLogs(stored: seq<StudyLog>, day: Day, ids: set<Id>): (r: seq<StudyLog>)
    ensures forall l :: l in r <==> l in stored && l.day == day && l.materialId in ids
    ensures |r| <= |stored|
  {
    Filter(Filter(stored, (l: StudyLog) => l.day == day), (l: StudyLog) => l.materialId in ids)
  }

  /** A stored log joins the sheet at the end exactly when it is of the day and of a listed material. */
  lemma ShownLogsAppend(stored: seq<StudyLog>, l: StudyLog, day: Day, ids: set<Id>)
    ensures ShownLogs(stored + [l], day, ids)
         == ShownLogs(stored, day, ids) + (if l.day == day && l.materialId in ids then [l] else [])
  {
    FilterAppend(stored, [l], (l: StudyLog) => l.day == day);
    var onDay := Filter(stored, (l: StudyLog) => l.day == day);
    var last := if l.day == day then [l] else [];
    assert Filter([l], (l: StudyLog) => l.day == day) == last;
    FilterAppend(onDay, last, (l: StudyLog) => l.materialId in ids);
    assert Filter(last, (l: StudyLog) => l.materialId in ids) == (if l.day == day && l.materialId in ids then [l] else []);
  }

  /** The step of the adjust buttons: 5 minutes for time units, otherwise 1. */
  function AdjustStep(isTime: bool): (r: int)
    ensures r > 0
    ensures isTime <==> r == 5
  {
    if isTime then 5 else 1
  }

  /** The unit a log row shows: its material's, or "" when the material is not listed. */
  function LogUnit(materials: seq<Material>, l: StudyLog): (unit: string)
    ensures (forall m :: m in materials ==> m.id != l.materialId) ==> unit == ""
    ensures (exists m :: m in materials && m.id == l.materialId) ==>
      exists m :: m in materials && m.id == l.materialId && m.unit == unit
  {
    var m := FirstWhere(materials, (m: Material) => m.id == l.materialId);
    if m.Some? then m.value.unit else ""
  }

  /**
   * `adjustLog(_:by:)` on the stored table: a log whose new amount is not
   * positive is deleted, otherwise it takes the new amount; every other log
   * stays as it was.
   */
  function AdjustedLogs(stored: seq<StudyLog>, log: StudyLog, delta: int): (r: seq<StudyLog>)
    ensures |r| <= |stored|
    ensures forall l: StudyLog :: l.id != log.id ==> (l in r <==> l in stored)
    ensures log.amount + delta <= 0 ==> forall l :: l in r ==> l.id != log.id
    ensures log.amount + delta > 0 ==> |r| == |stored|
    ensures log.amount + delta > 0 ==> forall i :: 0 <= i < |stored| && stored[i].id == log.id ==>
      r[i] == stored[i].(amount := log.amount + delta)
  {
    var newAmount := log.amount + delta;
    if newAmount <= 0 then Filter(stored, (l: StudyLog) => l.id != log.id)
    else
      var r := MapWhere(stored, (l: StudyLog) => l.id == log.id, (l: StudyLog) => l.(amount := newAmount));
      assert forall l: StudyLog :: l.id != log.id && l in stored ==> l in r by {
        forall l: StudyLog | l.id != log.id && l in stored ensures l in r {
          var i :| 0 <= i < |stored| && stored[i] == l;
          assert r[i] == l;
        }
      }
      r
  }

  /**
   * The plus button and then the minus button give the table back, when the
   * table holds the log as shown and no other log with its id.
   */
  lemma AdjustUpThenDown(stored: seq<StudyLog>, log: StudyLog, step: int)
    requires step > 0 && log.amount > 0
    requires forall l :: l in stored && l.id == log.id ==> l == log
    ensures AdjustedLogs(AdjustedLogs(stored, log, step), log.(amount := log.amount + step), -step) == stored
  {
    var up := AdjustedLogs(stored, log, step);
    var down := AdjustedLogs(up, log.(amount := log.amount + step), -step);
    assert |up| == |stored| && |down| == |up|;
    forall i | 0 <= i < |stored|
      ensures down[i] == stored[i]
    {
      if stored[i].id == log.id {
        assert stored[i] in stored;
        assert up[i] == log.(amount := log.amount + step);
        assert down[i] == up[i].(amount := log.amount);
      } else {
        assert up[i] == stored[i];
      }
    }
  }

  /** Adjusting keeps the log ids of the table distinct. */
  lemma AdjustedDistinct(stored: seq<StudyLog>, log: StudyLog, delta: int)
    requires DistinctBy(stored, KeyOfLog)
    ensures DistinctBy(AdjustedLogs(stored, log, delta), KeyOfLog)
  {
    var newAmount := log.amount + delta;
    if newAmount <= 0 {
      FilterDistinct(stored, (l: StudyLog) => l.id != log.id, KeyOfLog);
    } else {
      MapWhereDistinct(stored, (l: StudyLog) => l.id == log.id, (l: StudyLog) => l.(amount := newAmount), KeyOfLog);
    }
  }

  /** The ids of the listed logs at the swiped offsets below `k`. */
  function IdsAt(logs: seq<StudyLog>, offsets: set<int>, k: int): set<Id> {
    set i | 0 <= i < k && i < |logs| && i in offsets :: logs[i].id
  }

  /** The stored logs whose id is not in `ids`. */
  function LogsNotIn(stored: seq<StudyLog>, ids: set<Id>): (r: seq<StudyLog>)
    ensures forall l :: l in r <==> l in stored && l.id !in ids
  {
    Filter(stored, (l: StudyLog) => l.id !in ids)
  }

  /** The table without the log of id `id` (`modelContext.delete`). */
  function WithoutId(stored: seq<StudyLog>, id: Id): (r: seq<StudyLog>)
    ensures forall l :: l in r <==> l in stored && l.id != id
  {
    Filter(stored, (l: StudyLog) => l.id != id)
  }

  /** Deleting one id keeps the log ids of the table distinct. */
  lemma WithoutIdDistinct(stored: seq<StudyLog>, id: Id)
    requires DistinctBy(stored, KeyOfLog)
    ensures DistinctBy(WithoutId(stored, id), KeyOfLog)
  {
    FilterDistinct(stored, (l: StudyLog) => l.id != id, KeyOfLog);
  }

  /** One swiped offset more: deleting the log listed there extends the deleted ids by its id. */
  lemma DeleteStep(stored: seq<StudyLog>, logs: seq<StudyLog>, offsets: set<int>, k: nat)
    requires k < |logs|
    ensures (if k in offsets then WithoutId(LogsNotIn(stored, IdsAt(logs, offsets, k)), logs[k].id)
             else LogsNotIn(stored, IdsAt(logs, offsets, k)))
         == LogsNotIn(stored, IdsAt(logs, offsets, k + 1))
  {
    var ids := IdsAt(logs, offsets, k);
    var id := logs[k].id;
    if k in offsets {
      assert IdsAt(logs, offsets, k + 1) == ids + {id};
      FilterFilterSame(stored, (l: StudyLog) => l.id !in ids, (l: StudyLog) => l.id != id,
                       (l: StudyLog) => l.id !in ids + {id});
    } else {
      assert IdsAt(logs, offsets, k + 1) == ids;
    }
  }

  /** Deleting ids that no stored log carries leaves the table as it was. */
  lemma LogsNotInNone(stored: seq<StudyLog>, ids: set<Id>)
    requires forall l :: l in stored ==> l.id !in ids
    ensures LogsNotIn(stored, ids) == stored
  {
    FilterAll(stored, (l: StudyLog) => l.id !in ids);
  }

  /** No two listed logs share an id. */
  predicate UniqueIds(logs: seq<StudyLog>) {
    forall i, j :: 0 <= i < |logs| && 0 <= j < |logs| && logs[i].id == logs[j].id ==> i == j
  }

  /**
   * Swiping deletes exactly the swiped rows: after the deletion and the
   * fetch that follows it, a listed log of distinct ids is still shown
   * exactly when its offset was not swiped.
   */
  lemma DeleteRemovesSwipedRows(stored: seq<StudyLog>, day: Day, ids: set<Id>, offsets: set<int>)
    requires UniqueIds(ShownLogs(stored, day, ids))
    ensures var logs := ShownLogs(stored, day, ids);
      var after := ShownLogs(LogsNotIn(stored, IdsAt(logs, offsets, |logs|)), day, ids);
      forall i :: 0 <= i < |logs| ==> (logs[i] in after <==> i !in offsets)
  {
    var logs := ShownLogs(stored, day, ids);
    var gone := IdsAt(logs, offsets, |logs|);
    forall i | 0 <= i < |logs|
      ensures logs[i].id in gone <==> i in offsets
    {
      if logs[i].id in gone {
        var j :| 0 <= j < |logs| && j in offsets && logs[j].id == logs[i].id;
        assert i == j;
      }
    }
  }

  /** The sheet's state: the day, the listed materials and the logs it shows. */
  class DailyLogScreen {
    const store: Store
    const date: Instant
    const materials: seq<Material>
    var logs: seq<StudyLog>

    ghost predicate Valid()
      reads this, store
    {
      store.Valid()
    }

    /** The sheet before it appears: no logs shown. */
    constructor (store: Store, date: Instant, materials: seq<Material>)
      ensures this.store == store && this.date == date && this.materials == materials && logs == []
    {
      this.store := store;
      this.date := date;
      this.materials := materials;
      logs := [];
    }

    /** `fetchLogs`. */
    method FetchLogs()
      modifies this`logs
      ensures logs == ShownLogs(store.logs, StartOfDay(date), IdsOf(materials))
    {
      logs := ShownLogs(store.logs, StartOfDay(date), IdsOf(materials));
    }

    /**
     * `addLog(materialId:amount:)`: one log dated on the sheet's day is
     * stored, and it appears at the end of the list when its material is
     * listed.
     */
    method AddLog(materialId: Id, amount: int) returns (log: StudyLog)
      requires Valid()
      modifies store`logs, store`nextId, this`logs
      ensures Valid()
      ensures log == NewLog(old(store.nextId), date, materialId, amount)
      ensures store.logs == old(store.logs) + [log]
      ensures logs == ShownLogs(store.logs, StartOfDay(date), IdsOf(materials))
      ensures materialId in IdsOf(materials) ==>
        logs == ShownLogs(old(store.logs), StartOfDay(date), IdsOf(materials)) + [log]
    {
      log := store.InsertLog(date, materialId, amount);
      ShownLogsAppend(old(store.logs), log, StartOfDay(date), IdsOf(materials));
      FetchLogs();
    }

    /**
     * A record button: the log is added; the material's progress moves
     * (clamped at its total) only when the sheet's day is today.
     */
    method RecordButton(material: Material, amount: int, now: Instant) returns (log: StudyLog)
      requires Valid()
      modifies store`logs, store`nextId, store`materials, this`logs
      ensures Valid()
      ensures log == NewLog(old(store.nextId), date, material.id, amount)
      ensures store.logs == old(store.logs) + [log]
      ensures logs == ShownLogs(store.logs, StartOfDay(date), IdsOf(materials))
      ensures StartOfDay(date) == StartOfDay(now) ==>
        store.materials == MapWhere(old(store.materials), (m: Material) => m.id == material.id,
                                    (m: Material) => WithRecorded(m, amount))
      ensures StartOfDay(date) != StartOfDay(now) ==> store.materials == old(store.materials)
    {
      log := AddLog(material.id, amount);
      if StartOfDay(date) == StartOfDay(now) {
        store.ClampProgress(material.id, amount);
      }
    }

    /** `adjustLog(_:by:)`, then the fetch. */
    method AdjustLog(log: StudyLog, delta: int)
      requires Valid()
      modifies store`logs, this`logs
      ensures Valid()
      ensures store.logs == AdjustedLogs(old(store.logs), log, delta)
      ensures logs == ShownLogs(store.logs, StartOfDay(date), IdsOf(materials))
    {
      AdjustedDistinct(store.logs, log, delta);
      store.logs := AdjustedLogs(store.logs, log, delta);
      FetchLogs();
    }

    /**
     * `deleteLogs(at:)`: the logs listed at the swiped offsets are deleted
     * from the table, one offset at a time in ascending order, then the list
     * is fetched again.
     */
    method DeleteLogs(offsets: set<int>)
      requires Valid()
      requires forall i :: i in offsets ==> 0 <= i < |logs|
      modifies store`logs, this`logs
      ensures Valid()
      ensures store.logs == LogsNotIn(old(store.logs), IdsAt(old(logs), offsets, |old(logs)|))
      ensures logs == ShownLogs(store.logs, StartOfDay(date), IdsOf(materials))
    {
      ghost var stored := store.logs;
      assert IdsAt(logs, offsets, 0) == {};
      LogsNotInNone(stored, {});
      var k := 0;
      while k < |logs|
        invariant 0 <= k <= |logs|
        invariant logs == old(logs)
        invariant store.logs == LogsNotIn(stored, IdsAt(logs, offsets, k))
        invariant store.Valid()
      {
        DeleteStep(stored, logs, offsets, k);
        if k in offsets {
          WithoutIdDistinct(store.logs, logs[k].id);
          store.logs := WithoutId(store.logs, logs[k].id);
        }
        k := k + 1;
      }
      FetchLogs();
    }
  }
}
