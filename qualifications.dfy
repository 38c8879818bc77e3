/**
 * The qualification screen's view model: the list of qualifications (exam
 * goals) oldest first, which of them is selected, and the cascade that
 * deletes a qualification with everything it owns.
 */
module Qualifications {
  import opened Prelude
  import opened Calendar
  import opened Models
  import opened Persistence

  /** The sort key of `fetchQualifications`. */
  function CreatedAt(q: Qualification): int {
    q.createdAt
  }

  /** `fetchQualifications`: every stored qualification, oldest first. */
  function Fetched(stored: seq<Qualification>): (r: seq<Qualification>)
    ensures SortedBy(r, CreatedAt)
    ensures multiset(r) == multiset(stored)
    ensures forall q :: q in r <==> q in stored
  {
    var r := SortBy(stored, CreatedAt);
    assert forall q :: q in r <==> q in stored by {
      forall q ensures q in r <==> q in stored {
        assert q in r <==> q in multiset(r);
      }
    }
    r
  }

  /**
   * `selectedQualification`: the first qualification of the list that is
   * marked selected; in a list sorted by creation that is the oldest one.
   */
  function FirstSelected(qs: seq<Qualification>): (r: Option<Qualification>)
    ensures r.None? <==> forall q :: q in qs ==> !q.isSelected
    ensures r.Some? ==> r.value in qs && r.value.isSelected
    ensures r.Some? && SortedBy(qs, CreatedAt) ==>
      forall q :: q in qs && q.isSelected ==> r.value.createdAt <= q.createdAt
  {
    var i := FirstIndex(qs, (q: Qualification) => q.isSelected);
    assert forall j :: 0 <= j < |qs| && qs[j].isSelected ==> i <= j;
    if i < |qs| then Some(qs[i]) else None
  }

  /** The table after `selectQualification`: selected exactly where the id is `id`, all else as it was. */
  function SelectOnly(qs: seq<Qualification>, id: Id): (r: seq<Qualification>)
    ensures |r| == |qs|
    ensures forall i :: 0 <= i < |qs| ==> r[i] == qs[i].(isSelected := qs[i].id == id)
  {
    if qs == [] then []
    else SelectOnly(qs[..|qs| - 1], id) + [qs[|qs| - 1].(isSelected := qs[|qs| - 1].id == id)]
  }

  /**
   * After selecting `id`, exactly the qualifications with that id are
   * selected, and the selected qualification of the refreshed list has that
   * id, present exactly when some stored qualification has it.
   */
  lemma SelectOnlySelects(qs: seq<Qualification>, id: Id)
    ensures forall q :: q in SelectOnly(qs, id) ==> (q.isSelected <==> q.id == id)
    ensures FirstSelected(Fetched(SelectOnly(qs, id))).Some? <==> exists q :: q in qs && q.id == id
    ensures FirstSelected(Fetched(SelectOnly(qs, id))).Some? ==> FirstSelected(Fetched(SelectOnly(qs, id))).value.id == id
  {
    var r := SelectOnly(qs, id);
    SelectOnlyMarks(qs, id);
    var f := FirstSelected(Fetched(r));
    if f.Some? {
      assert f.value in r;
      var j :| 0 <= j < |r| && r[j] == f.value;
      assert qs[j] in qs && qs[j].id == id;
    }
    if exists q :: q in qs && q.id == id {
      var q :| q in qs && q.id == id;
      var i :| 0 <= i < |qs| && qs[i] == q;
      assert r[i] in Fetched(r) && r[i].isSelected;
    }
  }

  /** After selecting `id`, a qualification is selected exactly when its id is `id`. */
  lemma SelectOnlyMarks(qs: seq<Qualification>, id: Id)
    ensures forall q :: q in SelectOnly(qs, id) ==> (q.isSelected <==> q.id == id)
  {
    var r := SelectOnly(qs, id);
    forall q | q in r ensures q.isSelected <==> q.id == id {
      var i :| 0 <= i < |r| && r[i] == q;
    }
  }

  /** The first qualification added to an empty table is the selected one of the refreshed list. */
  lemma FirstAddedSelected(stored: seq<Qualification>, q: Qualification)
    requires Fetched(stored) == []
    requires q.isSelected
    ensures FirstSelected(Fetched(stored + [q])) == Some(q)
  {
    assert multiset(stored) == multiset{};
    assert stored + [q] == [q];
    SortBySorted([q], CreatedAt);
  }

  /** The materials of every qualification but `qId`. */
  function MaterialsNotOf(ms: seq<Material>, qId: Id): seq<Material> {
    Filter(ms, (m: Material) => m.qualificationId != qId)
  }

  /** The memos of every qualification but `qId`. */
  function MemosNotOf(memos: seq<Memo>, qId: Id): seq<Memo> {
    Filter(memos, (m: Memo) => m.qualificationId != qId)
  }

  /** The materials that are not among `done`. */
  function MaterialsBut(ms: seq<Material>, done: seq<Material>): seq<Material> {
    Filter(ms, (m: Material) => m !in done)
  }

  /** The logs that belong to none of the materials `done`. */
  function LogsBut(logs: seq<StudyLog>, done: seq<Material>): seq<StudyLog> {
    Filter(logs, (l: StudyLog) => l.materialId !in IdsOf(done))
  }

  /** The memos that are not among `done`. */
  function MemosBut(memos: seq<Memo>, done: seq<Memo>): seq<Memo> {
    Filter(memos, (m: Memo) => m !in done)
  }

  /** The images that belong to none of the memos `done`. */
  function ImagesBut(images: seq<MemoImage>, done: seq<Memo>): seq<MemoImage> {
    Filter(images, (i: MemoImage) => i.memoId !in MemoIdsOf(done))
  }

  /** Deleting one more material, and its logs, extends the cascade by that material. */
  lemma MaterialCascadeStep(ms: seq<Material>, logs: seq<StudyLog>, doomed: seq<Material>, i: nat)
    requires i < |doomed|
    ensures Filter(MaterialsBut(ms, doomed[..i]), (m: Material) => m != doomed[i]) == MaterialsBut(ms, doomed[..i + 1])
    ensures LogsWithout(LogsBut(logs, doomed[..i]), doomed[i].id) == LogsBut(logs, doomed[..i + 1])
  {
    var done, gone := doomed[..i], doomed[i];
    assert doomed[..i + 1] == done + [gone];
    FilterFilterSame(ms, (m: Material) => m !in done, (m: Material) => m != gone, (m: Material) => m !in done + [gone]);
    assert IdsOf(done + [gone]) == IdsOf(done) + {gone.id};
    FilterFilterSame(logs, (l: StudyLog) => l.materialId !in IdsOf(done), (l: StudyLog) => l.materialId != gone.id,
                     (l: StudyLog) => l.materialId !in IdsOf(done + [gone]));
  }

  /** Deleting one more memo, and its images, extends the cascade by that memo. */
  lemma MemoCascadeStep(memos: seq<Memo>, images: seq<MemoImage>, doomed: seq<Memo>, k: nat)
    requires k < |doomed|
    ensures Filter(MemosBut(memos, doomed[..k]), (m: Memo) => m != doomed[k]) == MemosBut(memos, doomed[..k + 1])
    ensures Filter(ImagesBut(images, doomed[..k]), (i: MemoImage) => i.memoId != doomed[k].id) == ImagesBut(images, doomed[..k + 1])
  {
    var done, gone := doomed[..k], doomed[k];
    assert doomed[..k + 1] == done + [gone];
    FilterFilterSame(memos, (m: Memo) => m !in done, (m: Memo) => m != gone, (m: Memo) => m !in done + [gone]);
    assert MemoIdsOf(done + [gone]) == MemoIdsOf(done) + {gone.id};
    FilterFilterSame(images, (i: MemoImage) => i.memoId !in MemoIdsOf(done), (i: MemoImage) => i.memoId != gone.id,
                     (i: MemoImage) => i.memoId !in MemoIdsOf(done + [gone]));
  }

  /** Deleting nothing leaves the tables as they are. */
  lemma CascadeStart(ms: seq<Material>, logs: seq<StudyLog>, memos: seq<Memo>, images: seq<MemoImage>)
    ensures MaterialsBut(ms, []) == ms && LogsBut(logs, []) == logs
    ensures MemosBut(memos, []) == memos && ImagesBut(images, []) == images
  {
    FilterAll(ms, (m: Material) => m !in []);
    FilterAll(logs, (l: StudyLog) => l.materialId !in IdsOf([]));
    FilterAll(memos, (m: Memo) => m !in []);
    FilterAll(images, (i: MemoImage) => i.memoId !in MemoIdsOf([]));
  }

  /** The next doomed material, distinct from those before it, is still stored. */
  lemma MaterialCascadeNext(ms: seq<Material>, doomed: seq<Material>, i: nat)
    requires i < |doomed| && DistinctBy(doomed, KeyOfMaterial)
    requires forall m :: m in doomed ==> m in ms
    ensures doomed[i] in MaterialsBut(ms, doomed[..i])
  {
    forall j | 0 <= j < i ensures doomed[..i][j] != doomed[i] {
      assert KeyOfMaterial(doomed[j]) != KeyOfMaterial(doomed[i]);
    }
  }

  /** The next doomed memo, distinct from those before it, is still stored. */
  lemma MemoCascadeNext(memos: seq<Memo>, doomed: seq<Memo>, k: nat)
    requires k < |doomed| && DistinctBy(doomed, KeyOfMemo)
    requires forall m :: m in doomed ==> m in memos
    ensures doomed[k] in MemosBut(memos, doomed[..k])
  {
    forall j | 0 <= j < k ensures doomed[..k][j] != doomed[k] {
      assert KeyOfMemo(doomed[j]) != KeyOfMemo(doomed[k]);
    }
  }

  /** Deleting the materials of one qualification keeps exactly the materials of the others. */
  lemma MaterialsButOwn(ms: seq<Material>, qId: Id)
    ensures MaterialsBut(ms, MaterialsOf(ms, qId)) == MaterialsNotOf(ms, qId)
  {
    FilterSame(ms, (m: Material) => m !in MaterialsOf(ms, qId), (m: Material) => m.qualificationId != qId);
  }

  /** Deleting the memos of one qualification keeps exactly the memos of the others. */
  lemma MemosButOwn(memos: seq<Memo>, qId: Id)
    ensures MemosBut(memos, MemosOf(memos, qId)) == MemosNotOf(memos, qId)
  {
    FilterSame(memos, (m: Memo) => m !in MemosOf(memos, qId), (m: Memo) => m.qualificationId != qId);
  }

  /** The stored settings after `appSettings?.selectedQualificationId = id` on the record with id `settingsId`. */
  function StoredSelection(settings: seq<AppSettings>, settingsId: Id, id: Id): seq<AppSettings> {
    MapWhere(settings, (s: AppSettings) => s.id == settingsId, (s: AppSettings) => s.(selectedQualificationId := Some(id)))
  }

  /** `modelContext.delete(q)`: the qualifications other than `q`, in stored order. */
  function Remaining(qs: seq<Qualification>, q: Qualification): (r: seq<Qualification>)
    ensures forall x :: x in r <==> x in qs && x != q
  {
    Filter(qs, (x: Qualification) => x != q)
  }

  /**
   * Among stored qualifications with distinct ids, deleting a stored `q`
   * removes exactly the qualification with its id, and the ids stay distinct.
   */
  lemma RemainingById(qs: seq<Qualification>, q: Qualification)
    requires DistinctBy(qs, KeyOfQualification) && q in qs
    ensures forall x :: x in Remaining(qs, q) <==> x in qs && x.id != q.id
    ensures DistinctBy(Remaining(qs, q), KeyOfQualification)
  {
    FilterDistinct(qs, (x: Qualification) => x != q, KeyOfQualification);
    forall x | x in qs && x.id == q.id ensures x == q {
      DistinctByMembers(qs, KeyOfQualification, x, q);
    }
  }

  /**
   * The id `deleteQualification(q)` selects afterwards: the oldest remaining
   * qualification's, when `q` was selected and others remain; otherwise none.
   */
  function NextSelection(qs: seq<Qualification>, q: Qualification): Option<Id> {
    var rest := Remaining(qs, q);
    if q.isSelected && rest != [] then Some(Fetched(rest)[0].id) else None
  }

  /**
   * The qualification table after `deleteQualification(q)`: without `q`,
   * and, when `q` was selected and others remain, with the oldest remaining
   * one selected alone.
   */
  function AfterRemoval(qs: seq<Qualification>, q: Qualification): seq<Qualification> {
    match NextSelection(qs, q)
    case Some(id) => SelectOnly(Remaining(qs, q), id)
    case None => Remaining(qs, q)
  }

  /**
   * Deleting a selected qualification while others remain leaves exactly
   * the oldest remaining qualification's id selected, and the refreshed
   * list then shows a selection; deleting an unselected one leaves the
   * others exactly as they were.
   */
  lemma AfterRemovalSelection(qs: seq<Qualification>, q: Qualification)
    ensures !q.isSelected ==> AfterRemoval(qs, q) == Remaining(qs, q)
    ensures q.isSelected && (exists x :: x in qs && x != q) ==>
      var oldest := Fetched(Remaining(qs, q))[0];
      && (forall x :: x in AfterRemoval(qs, q) ==> (x.isSelected <==> x.id == oldest.id))
      && FirstSelected(Fetched(AfterRemoval(qs, q))).Some?
      && FirstSelected(Fetched(AfterRemoval(qs, q))).value.id == oldest.id
  {
    var rest := Remaining(qs, q);
    if q.isSelected && (exists x :: x in qs && x != q) {
      var x :| x in qs && x != q;
      assert x in rest;
      var oldest := Fetched(rest)[0];
      assert oldest in rest;
      SelectOnlySelects(rest, oldest.id);
    }
  }

  class QualificationViewModel {
    const store: Store
    /** `qualifications`, as the last fetch left it. */
    var qualifications: seq<Qualification>
    var appSettings: Option<AppSettings>

    /** The store is consistent and the list is its latest fetch. */
    ghost predicate Valid()
      reads this, store
    {
      store.Valid() && qualifications == Fetched(store.qualifications)
    }

    /** `init`, which runs `fetchAll`. */
    constructor (store: Store)
      requires store.Valid()
      modifies store`settings, store`nextId
      ensures this.store == store && Valid()
      ensures appSettings.Some? && appSettings.value in store.settings
    {
      this.store := store;
      qualifications := Fetched(store.qualifications);
      new;
      var s := store.FetchOrCreateSettings();
      appSettings := Some(s);
    }

    /**
     * `selectedQualification`: the first listed qualification marked
     * selected, none exactly when no listed one is; the list as fetched is
     * sorted by creation, so that is the oldest selected one.
     */
    function SelectedQualification(): (r: Option<Qualification>)
      reads this
      ensures r == FirstSelected(qualifications)
      ensures r.Some? ==> r.value in qualifications && r.value.isSelected
      ensures r.None? <==> forall q :: q in qualifications ==> !q.isSelected
      ensures r.Some? && SortedBy(qualifications, CreatedAt) ==>
        forall q :: q in qualifications && q.isSelected ==> r.value.createdAt <= q.createdAt
    {
      FirstSelected(qualifications)
    }

    /** `fetchQualifications`. */
    method FetchQualifications()
      requires store.Valid()
      modifies this`qualifications
      ensures Valid()
    {
      qualifications := Fetched(store.qualifications);
    }

    /** `fetchAppSettings`: afterwards the settings are present. */
    method FetchAppSettings()
      requires Valid()
      modifies this`appSettings, store`settings, store`nextId
      ensures Valid()
      ensures appSettings.Some? && appSettings.value in store.settings
      ensures |old(store.settings)| > 0 ==> appSettings == Some(old(store.settings)[0]) && store.settings == old(store.settings)
      ensures |old(store.settings)| == 0 ==> appSettings == Some(DefaultSettings(old(store.nextId))) && store.settings == [appSettings.value]
    {
      var s := store.FetchOrCreateSettings();
      appSettings := Some(s);
    }

    /** `appSettings?.selectedQualificationId = id`, in the store as well. */
    method SetSelectedId(id: Id)
      requires store.Valid()
      modifies this`appSettings, store`settings
      ensures store.Valid()
      ensures old(appSettings).None? ==> appSettings == None && store.settings == old(store.settings)
      ensures old(appSettings).Some? ==>
        && appSettings == Some(old(appSettings).value.(selectedQualificationId := Some(id)))
        && store.settings == StoredSelection(old(store.settings), old(appSettings).value.id, id)
    {
      if appSettings.Some? {
        store.UpdateSettings(appSettings.value.id, (s: AppSettings) => s.(selectedQualificationId := Some(id)));
        appSettings := Some(appSettings.value.(selectedQualificationId := Some(id)));
      }
    }

    /**
     * `addQualification`: the new qualification is selected, and becomes the
     * settings' selection, exactly when the list was empty; the stored
     * qualifications are otherwise untouched.
     */
    method AddQualification(name: string, examDate: Option<Instant>, weeklyTargetDays: int, quotaMode: QuotaMode, now: Instant)
      requires Valid()
      modifies this`qualifications, this`appSettings, store`qualifications, store`settings, store`nextId
      ensures Valid()
      ensures var q := NewQualification(old(store.nextId), name, examDate, weeklyTargetDays, quotaMode, old(qualifications) == [], now);
        && store.qualifications == old(store.qualifications) + [q]
        && (old(qualifications) == [] ==> SelectedQualification() == Some(q))
        && (old(qualifications) == [] && old(appSettings).Some? ==>
              && appSettings == Some(old(appSettings).value.(selectedQualificationId := Some(q.id)))
              && store.settings == StoredSelection(old(store.settings), old(appSettings).value.id, q.id))
        && (old(qualifications) != [] || old(appSettings).None? ==>
              appSettings == old(appSettings) && store.settings == old(store.settings))
    {
      var isFirst := qualifications == [];
      ghost var before := store.qualifications;
      var id := store.FreshId();
      var q := NewQualification(id, name, examDate, weeklyTargetDays, quotaMode, isFirst, now);
      AppendDistinct(store.qualifications, q, KeyOfQualification);
      store.qualifications := store.qualifications + [q];
      if isFirst {
        FirstAddedSelected(before, q);
        SetSelectedId(q.id);
      }
      FetchQualifications();
    }

    /** `updateQualification`: overwrites name, exam date, weekly target and mode, and nothing else. */
    method UpdateQualification(q: Qualification, name: string, examDate: Option<Instant>, weeklyTargetDays: int, quotaMode: QuotaMode)
      requires Valid()
      modifies this`qualifications, store`qualifications
      ensures Valid()
      ensures store.qualifications
           == MapWhere(old(store.qualifications), (x: Qualification) => x.id == q.id,
                       (x: Qualification) => x.(name := name, examDate := examDate, weeklyTargetDays := weeklyTargetDays, quotaMode := quotaMode))
    {
      MapWhereDistinct(store.qualifications, (x: Qualification) => x.id == q.id,
                       (x: Qualification) => x.(name := name, examDate := examDate, weeklyTargetDays := weeklyTargetDays, quotaMode := quotaMode),
                       KeyOfQualification);
      store.qualifications := MapWhere(store.qualifications, (x: Qualification) => x.id == q.id,
                                       (x: Qualification) => x.(name := name, examDate := examDate, weeklyTargetDays := weeklyTargetDays, quotaMode := quotaMode));
      FetchQualifications();
    }

    /** The loop of `selectQualification`: marks exactly the records with id `id` as selected. */
    method MarkOnly(id: Id)
      requires store.Valid()
      modifies store`qualifications
      ensures store.Valid()
      ensures store.qualifications == SelectOnly(old(store.qualifications), id)
    {
      ghost var before := store.qualifications;
      var i := 0;
      while i < |store.qualifications|
        invariant 0 <= i <= |store.qualifications| == |before|
        invariant forall j :: 0 <= j < i ==> store.qualifications[j] == before[j].(isSelected := before[j].id == id)
        invariant forall j :: i <= j < |before| ==> store.qualifications[j] == before[j]
        invariant store.Valid()
      {
        var x := store.qualifications[i];
        store.qualifications := store.qualifications[i := x.(isSelected := x.id == id)];
        i := i + 1;
      }
    }

    /**
     * `selectQualification`: the table becomes `SelectOnly` of its old
     * contents for `q`'s id (see `SelectOnlySelects` for what that means for
     * the selection), and the settings record that id.
     */
    method SelectQualification(q: Qualification)
      requires Valid()
      modifies this`qualifications, this`appSettings, store`qualifications, store`settings
      ensures Valid()
      ensures store.qualifications == SelectOnly(old(store.qualifications), q.id)
      ensures old(appSettings).None? ==> appSettings == None && store.settings == old(store.settings)
      ensures old(appSettings).Some? ==>
        && appSettings == Some(old(appSettings).value.(selectedQualificationId := Some(q.id)))
        && store.settings == StoredSelection(old(store.settings), old(appSettings).value.id, q.id)
    {
      ghost var settings0, selected0 := store.settings, appSettings;
      MarkOnly(q.id);
      assert store.settings == settings0 && appSettings == selected0;
      ghost var after := store.qualifications;
      SetSelectedId(q.id);
      assert store.qualifications == after;
      ghost var settings1, selected1 := store.settings, appSettings;
      FetchQualifications();
      assert store.settings == settings1 && appSettings == selected1;
    }

    /** Deletes every material of qualification `qId` together with the logs of each. */
    method DeleteMaterialsOf(qId: Id)
      requires store.Valid()
      modifies store`materials, store`logs
      ensures store.Valid()
      ensures store.materials == MaterialsNotOf(old(store.materials), qId)
      ensures store.logs == LogsBut(old(store.logs), MaterialsOf(old(store.materials), qId))
    {
      ghost var M0, L0 := store.materials, store.logs;
      var doomed := MaterialsOf(store.materials, qId);
      FilterDistinct(M0, (m: Material) => m.qualificationId == qId, KeyOfMaterial);
      CascadeStart(M0, L0, [], []);
      var i := 0;
      while i < |doomed|
        invariant 0 <= i <= |doomed|
        invariant store.Valid()
        invariant store.materials == MaterialsBut(M0, doomed[..i])
        invariant store.logs == LogsBut(L0, doomed[..i])
      {
        MaterialCascadeStep(M0, L0, doomed, i);
        MaterialCascadeNext(M0, doomed, i);
        store.DeleteMaterial(doomed[i]);
        i := i + 1;
      }
      assert doomed[..i] == doomed;
      MaterialsButOwn(M0, qId);
    }

    /** Deletes every memo of qualification `qId` together with the images of each. */
    method DeleteMemosOf(qId: Id)
      requires store.Valid()
      modifies store`memos, store`images
      ensures store.Valid()
      ensures store.memos == MemosNotOf(old(store.memos), qId)
      ensures store.images == ImagesBut(old(store.images), MemosOf(old(store.memos), qId))
    {
      ghost var N0, I0 := store.memos, store.images;
      var doomed := MemosOf(store.memos, qId);
      FilterDistinct(N0, (m: Memo) => m.qualificationId == qId, KeyOfMemo);
      CascadeStart([], [], N0, I0);
      var k := 0;
      while k < |doomed|
        invariant 0 <= k <= |doomed|
        invariant store.Valid()
        invariant store.memos == MemosBut(N0, doomed[..k])
        invariant store.images == ImagesBut(I0, doomed[..k])
      {
        MemoCascadeStep(N0, I0, doomed, k);
        MemoCascadeNext(N0, doomed, k);
        store.DeleteMemo(doomed[k]);
        k := k + 1;
      }
      assert doomed[..k] == doomed;
      MemosButOwn(N0, qId);
    }

    /** The cascade of `deleteQualification`: the qualification's materials and logs, then its memos and images. */
    method DeleteOwnedRecords(qId: Id)
      requires store.Valid()
      modifies store`materials, store`logs, store`memos, store`images
      ensures store.Valid()
      ensures store.materials == MaterialsNotOf(old(store.materials), qId)
      ensures store.logs == LogsBut(old(store.logs), MaterialsOf(old(store.materials), qId))
      ensures store.memos == MemosNotOf(old(store.memos), qId)
      ensures store.images == ImagesBut(old(store.images), MemosOf(old(store.memos), qId))
    {
      DeleteMaterialsOf(qId);
      ghost var materials, logs := store.materials, store.logs;
      DeleteMemosOf(qId);
      assert store.materials == materials && store.logs == logs;
    }

    /**
     * The end of `deleteQualification`: `q` goes, and when it was selected
     * the oldest remaining qualification, if any, is selected.
     */
    method RemoveQualification(q: Qualification)
      requires Valid() && q in qualifications
      modifies this`qualifications, this`appSettings, store`qualifications, store`settings
      ensures Valid()
      ensures store.qualifications == AfterRemoval(old(store.qualifications), q)
      ensures NextSelection(old(store.qualifications), q).None? || old(appSettings).None? ==>
        appSettings == old(appSettings) && store.settings == old(store.settings)
      ensures NextSelection(old(store.qualifications), q).Some? && old(appSettings).Some? ==>
        var id := NextSelection(old(store.qualifications), q).value;
        && appSettings == Some(old(appSettings).value.(selectedQualificationId := Some(id)))
        && store.settings == StoredSelection(old(store.settings), old(appSettings).value.id, id)
    {
      ghost var qs0 := store.qualifications;
      DropQualification(q);
      if q.isSelected && |qualifications| > 0 {
        assert NextSelection(qs0, q) == Some(qualifications[0].id);
        SelectQualification(qualifications[0]);
      } else {
        assert NextSelection(qs0, q).None?;
      }
    }

    /** Deletes `q` from the store and refreshes the list; nothing else changes. */
    method DropQualification(q: Qualification)
      requires Valid() && q in qualifications
      modifies this`qualifications, store`qualifications
      ensures Valid()
      ensures store.qualifications == Remaining(old(store.qualifications), q)
    {
      RemainingById(store.qualifications, q);
      store.qualifications := Remaining(store.qualifications, q);
      FetchQualifications();
    }

    /**
     * `deleteQualification`: removes `q`, its materials and their logs, and
     * its memos and their images, leaving every other record as it was;
     * when `q` was the selected one and others remain, the oldest remaining
     * one becomes selected.
     */
    method DeleteQualification(q: Qualification)
      requires Valid() && q in qualifications
      modifies this`qualifications, this`appSettings,
               store`qualifications, store`settings, store`materials, store`logs, store`memos, store`images
      ensures Valid()
      ensures store.materials == MaterialsNotOf(old(store.materials), q.id)
      ensures store.logs == LogsBut(old(store.logs), MaterialsOf(old(store.materials), q.id))
      ensures store.memos == MemosNotOf(old(store.memos), q.id)
      ensures store.images == ImagesBut(old(store.images), MemosOf(old(store.memos), q.id))
      ensures store.qualifications == AfterRemoval(old(store.qualifications), q)
      ensures NextSelection(old(store.qualifications), q).None? || old(appSettings).None? ==>
        appSettings == old(appSettings) && store.settings == old(store.settings)
      ensures NextSelection(old(store.qualifications), q).Some? && old(appSettings).Some? ==>
        var id := NextSelection(old(store.qualifications), q).value;
        && appSettings == Some(old(appSettings).value.(selectedQualificationId := Some(id)))
        && store.settings == StoredSelection(old(store.settings), old(appSettings).value.id, id)
    {
      DeleteOwnedRecords(q.id);
      RemoveQualification(q);
    }
  }
}
