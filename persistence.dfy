/**
 * The persistent store (the SwiftData model context) as in-memory tables,
 * each in insertion order, and the ledger updates that both home screens
 * share: inserting a log, recording progress and deleting a material.
 *
 * A fetch of a table is the table itself; fetch and save failures, which
 * the app only prints, are not modelled.
 */
module Persistence {
  import opened Prelude
  import opened Calendar
  import opened Models

  /** The ids of a list of materials (`materials.map(\.id)`). */
  function IdsOf(ms: seq<Material>): (ids: set<Id>)
    ensures forall m :: m in ms ==> m.id in ids
    ensures forall id :: id in ids ==> exists m :: m in ms && m.id == id
  {
    set m | m in ms :: m.id
  }

  /** The logs that belong to one of the materials in `ids`. */
  function LogsOfMaterials(logs: seq<StudyLog>, ids: set<Id>): seq<StudyLog> {
    Filter(logs, (l: StudyLog) => l.materialId in ids)
  }

  /** The materials of one qualification, in insertion order. */
  function MaterialsOf(ms: seq<Material>, qualificationId: Id): seq<Material> {
    Filter(ms, (m: Material) => m.qualificationId == qualificationId)
  }

  /** The logs that do not belong to material `materialId`. */
  function LogsWithout(logs: seq<StudyLog>, materialId: Id): seq<StudyLog> {
    Filter(logs, (l: StudyLog) => l.materialId != materialId)
  }

  /** The memos of one qualification, in insertion order. */
  function MemosOf(memos: seq<Memo>, qualificationId: Id): seq<Memo> {
    Filter(memos, (m: Memo) => m.qualificationId == qualificationId)
  }

  /** The ids of a list of memos. */
  function MemoIdsOf(memos: seq<Memo>): (ids: set<Id>)
    ensures forall m :: m in memos ==> m.id in ids
    ensures forall id :: id in ids ==> exists m :: m in memos && m.id == id
  {
    set m | m in memos :: m.id
  }

  /** A material appended to the table joins its qualification's list at the end. */
  lemma MaterialsOfAppend(ms: seq<Material>, m: Material, qualificationId: Id)
    ensures MaterialsOf(ms + [m], qualificationId)
         == MaterialsOf(ms, qualificationId) + (if m.qualificationId == qualificationId then [m] else [])
  {
    assert (ms + [m])[..|ms|] == ms;
  }

  /** A log appended to the table joins the selection at the end when its material is selected. */
  lemma LogsOfMaterialsAppend(logs: seq<StudyLog>, l: StudyLog, ids: set<Id>)
    ensures LogsOfMaterials(logs + [l], ids) == LogsOfMaterials(logs, ids) + (if l.materialId in ids then [l] else [])
  {
    assert (logs + [l])[..|logs|] == logs;
  }

  /** A log appended to the table survives the deletion of every material but its own. */
  lemma LogsWithoutAppend(logs: seq<StudyLog>, l: StudyLog, materialId: Id)
    ensures LogsWithout(logs + [l], materialId) == LogsWithout(logs, materialId) + (if l.materialId != materialId then [l] else [])
  {
    assert (logs + [l])[..|logs|] == logs;
  }

  /** Recording progress on a material changes neither its id nor its qualification. */
  lemma RecordKeepsMaterialsOf(ms: seq<Material>, materialId: Id, amount: int, qualificationId: Id)
    ensures IdsOf(MaterialsOf(MapWhere(ms, (m: Material) => m.id == materialId, (m: Material) => WithRecorded(m, amount)),
                              qualificationId))
         == IdsOf(MaterialsOf(ms, qualificationId))
  {
    SameKeysSameIds(ms, MapWhere(ms, (m: Material) => m.id == materialId, (m: Material) => WithRecorded(m, amount)),
                    qualificationId);
  }

  /** Two tables that agree position by position on ids and qualifications list the same ids per qualification. */
  lemma SameKeysSameIds(ms: seq<Material>, ms': seq<Material>, qualificationId: Id)
    requires |ms| == |ms'|
    requires forall i :: 0 <= i < |ms| ==> ms'[i].id == ms[i].id && ms'[i].qualificationId == ms[i].qualificationId
    ensures IdsOf(MaterialsOf(ms', qualificationId)) == IdsOf(MaterialsOf(ms, qualificationId))
  {
    forall id | id in IdsOf(MaterialsOf(ms', qualificationId))
      ensures id in IdsOf(MaterialsOf(ms, qualificationId))
    {
      var m' :| m' in MaterialsOf(ms', qualificationId) && m'.id == id;
      var i :| 0 <= i < |ms'| && ms'[i] == m';
      assert ms[i] in MaterialsOf(ms, qualificationId);
    }
    forall id | id in IdsOf(MaterialsOf(ms, qualificationId))
      ensures id in IdsOf(MaterialsOf(ms', qualificationId))
    {
      var m :| m in MaterialsOf(ms, qualificationId) && m.id == id;
      var i :| 0 <= i < |ms| && ms[i] == m;
      assert ms'[i] in MaterialsOf(ms', qualificationId);
    }
  }

  /**
   * A settings record held in memory is the stored one: updating the stored
   * records with its id by an id-keeping `f` stores exactly `f` of it, and
   * nothing else, under that id.
   */
  lemma SettingsUpdateStored(settings: seq<AppSettings>, current: AppSettings, f: AppSettings -> AppSettings)
    requires DistinctBy(settings, KeyOfSettings) && current in settings
    requires forall s :: f(s).id == s.id
    ensures f(current) in MapWhere(settings, (s: AppSettings) => s.id == current.id, f)
    ensures forall s :: s in MapWhere(settings, (s: AppSettings) => s.id == current.id, f) && s.id == current.id ==> s == f(current)
  {
    var r := MapWhere(settings, (s: AppSettings) => s.id == current.id, f);
    var i :| 0 <= i < |settings| && settings[i] == current;
    assert r[i] == f(current);
    forall s | s in r && s.id == current.id ensures s == f(current) {
      var j :| 0 <= j < |r| && r[j] == s;
      DistinctByMembers(settings, KeyOfSettings, settings[j], current);
    }
  }

  class Store {
    var materials: seq<Material>
    var logs: seq<StudyLog>
    var qualifications: seq<Qualification>
    var memos: seq<Memo>
    var images: seq<MemoImage>
    var settings: seq<AppSettings>
    /** The next fresh identifier (stands for `UUID()`). */
    var nextId: Id

    /**
     * Every stored record's id, and every image's memo id, was handed out
     * earlier, and no two records of one table share an id.
     */
    ghost predicate Valid()
      reads this
    {
      && (forall m :: m in materials ==> m.id < nextId)
      && (forall l :: l in logs ==> l.id < nextId)
      && (forall q :: q in qualifications ==> q.id < nextId)
      && (forall m :: m in memos ==> m.id < nextId)
      && (forall i :: i in images ==> i.id < nextId && i.memoId < nextId)
      && (forall s :: s in settings ==> s.id < nextId)
      && DistinctBy(materials, KeyOfMaterial) && DistinctBy(logs, KeyOfLog)
      && DistinctBy(qualifications, KeyOfQualification) && DistinctBy(settings, KeyOfSettings)
      && DistinctBy(memos, KeyOfMemo) && DistinctBy(images, KeyOfImage)
    }

    constructor ()
      ensures Valid()
      ensures materials == [] && logs == [] && qualifications == [] && memos == [] && images == [] && settings == []
    {
      materials, logs, qualifications, memos, images, settings := [], [], [], [], [], [];
      nextId := 0;
    }

    /** A new identifier, distinct from every stored one. */
    method FreshId() returns (id: Id)
      requires Valid()
      modifies this`nextId
      ensures Valid()
      ensures id == old(nextId) && nextId == id + 1
    {
      id := nextId;
      nextId := nextId + 1;
    }

    /**
     * `fetchAppSettings`: the first stored settings record, or, when there is
     * none, a new default record, stored and returned.
     */
    method FetchOrCreateSettings() returns (s: AppSettings)
      requires Valid()
      modifies this`settings, this`nextId
      ensures Valid()
      ensures s in settings
      ensures |old(settings)| > 0 ==> s == old(settings)[0] && settings == old(settings)
      ensures |old(settings)| == 0 ==> s == DefaultSettings(old(nextId)) && settings == [s]
    {
      if |settings| > 0 {
        s := settings[0];
      } else {
        var id := FreshId();
        s := DefaultSettings(id);
        settings := settings + [s];
      }
    }

    /** Inserts `StudyLog(date:materialId:amount:)` under a fresh id. */
    method InsertLog(date: Instant, materialId: Id, amount: int) returns (log: StudyLog)
      requires Valid()
      modifies this`logs, this`nextId
      ensures Valid()
      ensures log == NewLog(old(nextId), date, materialId, amount)
      ensures logs == old(logs) + [log]
      ensures forall l :: l in old(logs) ==> l.id != log.id
      ensures nextId == old(nextId) + 1
    {
      var id := FreshId();
      log := NewLog(id, date, materialId, amount);
      logs := logs + [log];
    }

    /** `currentProgress = min(currentProgress + amount, totalAmount)` on the stored material. */
    method ClampProgress(materialId: Id, amount: int)
      requires Valid()
      modifies this`materials
      ensures Valid()
      ensures materials == MapWhere(old(materials), (m: Material) => m.id == materialId, (m: Material) => WithRecorded(m, amount))
      ensures forall m :: m in materials && m.id == materialId ==> m.currentProgress <= m.totalAmount
    {
      materials := MapWhere(materials, (m: Material) => m.id == materialId, (m: Material) => WithRecorded(m, amount));
    }

    /**
     * `recordProgress(material:amount:)`: clamps the material's progress at
     * its total and logs the amount as requested, unclamped, dated now.
     */
    method RecordProgress(materialId: Id, amount: int, now: Instant) returns (log: StudyLog)
      requires Valid()
      modifies this`materials, this`logs, this`nextId
      ensures Valid()
      ensures materials == MapWhere(old(materials), (m: Material) => m.id == materialId, (m: Material) => WithRecorded(m, amount))
      ensures forall m :: m in materials && m.id == materialId ==> m.currentProgress <= m.totalAmount
      ensures log == NewLog(old(nextId), now, materialId, amount)
      ensures logs == old(logs) + [log]
    {
      ClampProgress(materialId, amount);
      log := InsertLog(now, materialId, amount);
    }

    /**
     * `deleteMaterial`: deletes every log of the stored material, then the
     * material itself, which is the one record with its id.
     */
    method DeleteMaterial(material: Material)
      requires Valid() && material in materials
      modifies this`materials, this`logs
      ensures Valid()
      ensures logs == LogsWithout(old(logs), material.id)
      ensures materials == Filter(old(materials), (m: Material) => m != material)
      ensures forall m :: m in materials <==> m in old(materials) && m.id != material.id
    {
      FilterDistinct(logs, (l: StudyLog) => l.materialId != material.id, KeyOfLog);
      FilterDistinct(materials, (m: Material) => m != material, KeyOfMaterial);
      forall m | m in materials && m.id == material.id ensures m == material {
        DistinctByMembers(materials, KeyOfMaterial, m, material);
      }
      logs := LogsWithout(logs, material.id);
      materials := Filter(materials, (m: Material) => m != material);
    }

    /** Deletes every image of the stored memo, then the memo itself, the one record with its id. */
    method DeleteMemo(memo: Memo)
      requires Valid() && memo in memos
      modifies this`memos, this`images
      ensures Valid()
      ensures images == Filter(old(images), (i: MemoImage) => i.memoId != memo.id)
      ensures memos == Filter(old(memos), (m: Memo) => m != memo)
      ensures forall m :: m in memos <==> m in old(memos) && m.id != memo.id
    {
      FilterDistinct(images, (i: MemoImage) => i.memoId != memo.id, KeyOfImage);
      FilterDistinct(memos, (m: Memo) => m != memo, KeyOfMemo);
      forall m | m in memos && m.id == memo.id ensures m == memo {
        DistinctByMembers(memos, KeyOfMemo, m, memo);
      }
      images := Filter(images, (i: MemoImage) => i.memoId != memo.id);
      memos := Filter(memos, (m: Memo) => m != memo);
    }

    /** Applies `f`, which keeps ids, to the stored settings record with id `id`. */
    method UpdateSettings(id: Id, f: AppSettings -> AppSettings)
      requires Valid()
      requires forall s :: f(s).id == s.id
      modifies this`settings
      ensures Valid()
      ensures settings == MapWhere(old(settings), (s: AppSettings) => s.id == id, f)
    {
      settings := MapWhere(settings, (s: AppSettings) => s.id == id, f);
    }
  }
}
