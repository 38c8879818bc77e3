/**
 * The sheet that records a log for a chosen day and material
 * (`AddStudyLogView`): a date picker limited to today and earlier, a picker
 * over the listed materials, an amount built up with quick buttons, and the
 * save that stores the log and moves the material's progress.
 */
module AddLog {
  import opened Prelude
  import opened Numerics
  import opened Calendar
  import opened Models
  import opened Persistence
  import opened Formatting

  /** The quick buttons: 5, 15, 30 and 60 minutes for time units, else 1, 5, 10 and 50. */
  function QuickSteps(isTime: bool): (r: seq<int>)
    ensures |r| == 4
    ensures forall a :: a in r ==> a > 0
    ensures isTime ==> forall a :: a in r ==> a % 5 == 0
  {
    if isTime then [5, 15, 30, 60] else [1, 5, 10, 50]
  }

  /** `selectedMaterial`: the first listed material with the selected id. */
  function SelectedIn(materials: seq<Material>, selected: Option<Id>): (r: Option<Material>)
    ensures r.Some? ==> selected.Some? && r.value in materials && r.value.id == selected.value
    ensures selected.Some? && selected.value in IdsOf(materials) ==> r.Some?
  {
    if selected.None? then None else FirstWhere(materials, (m: Material) => m.id == selected.value)
  }

  class AddLogForm {
    const store: Store
    const materials: seq<Material>
    var selectedDate: Instant
    var selectedMaterialId: Option<Id>
    var amount: int

    /**
     * The picker only offers listed materials, the amount never drops below
     * zero, and for a time unit it is built from 5-minute steps.
     */
    ghost predicate Valid()
      reads this, store
    {
      && store.Valid()
      && (selectedMaterialId.Some? ==> selectedMaterialId.value in IdsOf(materials))
      && amount >= 0
      && (IsTime() ==> amount % 5 == 0)
    }

    /** The sheet as it opens: today, nothing selected, amount 0. */
    constructor (store: Store, materials: seq<Material>, now: Instant)
      requires store.Valid()
      ensures this.store == store && this.materials == materials
      ensures selectedDate == now && selectedMaterialId == None && amount == 0
      ensures Valid()
    {
      this.store := store;
      this.materials := materials;
      selectedDate := now;
      selectedMaterialId := None;
      amount := 0;
    }

    function SelectedMaterial(): Option<Material>
      reads this
    {
      SelectedIn(materials, selectedMaterialId)
    }

    /** `isTime`: the selected material counts minutes. */
    predicate IsTime()
      reads this
    {
      SelectedMaterial().Some? && SelectedMaterial().value.unit == HoursUnit
    }

    /** `isValid`, which enables the save button. */
    predicate IsValid()
      reads this
    {
      selectedMaterialId.Some? && amount > 0
    }

    /** `amountDisplay`: hours and minutes for a time unit, otherwise the number. */
    function AmountDisplay(): string
      reads this
    {
      if IsTime() then FormatMinutes(amount) else IntToString(amount)
    }

    /** The date picker, which offers today and earlier days only. */
    method PickDate(date: Instant, now: Instant)
      requires date <= now
      modifies this`selectedDate
      ensures selectedDate == date <= now
    {
      selectedDate := date;
    }

    /** The material picker, with `onChange`: choosing another material (or none) clears the amount. */
    method SelectMaterial(id: Option<Id>)
      requires Valid()
      requires id.Some? ==> id.value in IdsOf(materials)
      modifies this`selectedMaterialId, this`amount
      ensures Valid()
      ensures selectedMaterialId == id
      ensures amount == if id == old(selectedMaterialId) then old(amount) else 0
    {
      if id != selectedMaterialId {
        amount := 0;
      }
      selectedMaterialId := id;
    }

    /** A quick button, shown once a material is selected: adds its step to the amount. */
    method QuickAdd(step: int)
      requires Valid() && selectedMaterialId.Some?
      requires step in QuickSteps(IsTime())
      modifies this`amount
      ensures Valid() && IsValid()
      ensures amount == old(amount) + step
    {
      amount := amount + step;
    }

    /** The reset button. */
    method Reset()
      requires Valid()
      modifies this`amount
      ensures Valid() && !IsValid()
      ensures amount == 0
    {
      amount := 0;
    }

    /**
     * `save`: with a selected material and a positive amount, a log dated on
     * the picked day is stored and the material's progress moves, clamped at
     * its total, whatever the day; otherwise nothing changes.
     */
    method Save() returns (log: Option<StudyLog>)
      requires Valid()
      modifies store`logs, store`nextId, store`materials
      ensures Valid()
      ensures IsValid() <==> log.Some?
      ensures log.Some? ==>
        && log.value == NewLog(old(store.nextId), selectedDate, selectedMaterialId.value, amount)
        && store.logs == old(store.logs) + [log.value]
        && store.materials == MapWhere(old(store.materials), (m: Material) => m.id == log.value.materialId,
                                       (m: Material) => WithRecorded(m, log.value.amount))
      ensures log.None? ==> store.logs == old(store.logs) && store.materials == old(store.materials)
    {
      var material := SelectedMaterial();
      if material.None? || amount <= 0 {
        return None;
      }
      var l := store.InsertLog(selectedDate, material.value.id, amount);
      store.ClampProgress(material.value.id, amount);
      log := Some(l);
    }
  }

  /** Whatever the buttons pressed, a time amount is a whole number of 5-minute steps and is shown exactly. */
  lemma TimeAmountShownExactly(form: AddLogForm, m: Material)
    requires form.Valid() && form.SelectedMaterial() == Some(m) && m.unit == HoursUnit
    ensures form.amount % 5 == 0
    ensures form.AmountDisplay() == FormatMinutes(form.amount)
    ensures forall other: nat :: FormatMinutes(other) == form.AmountDisplay() ==> other == form.amount
  {
    forall other: nat | FormatMinutes(other) == form.AmountDisplay()
      ensures other == form.amount
    {
      FormatMinutesInjective(other, form.amount);
    }
  }
}
