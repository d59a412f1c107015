/** The page that edits a stored medication (src/pages/EditMedication.js): the effect that
    loads the medication into the form, the handlers of the list of times, and the submit
    that writes the edited medication back with a `daily` schedule. */
module EditMedicationPage {
  import opened Common
  import opened Medications
  import opened MedicationContext
  import opened MedicationForm

  /** The form the load effect fills from a stored medication: `field || default` for each
      field, and the times read from the schedule. */
  function LoadForm(med: Medication): Form
  {
    Form(med.name, med.description,
      if Truthy(med.dosage) then Num(med.dosage.value) else Text(""),
      if med.unit == "" then "pilula" else med.unit,
      if Truthy(med.quantity) then Num(med.quantity.value) else Text(""),
      if med.category.Some? then med.category.value else "",
      med.instructions,
      TimesOf(med.schedule))
  }

  /** The medication `handleSubmit` builds: the loaded one (spread), with every form field
      written over it and a `daily` schedule with the listed times. */
  function EditPayload(base: Medication, form: Form, parse: string -> Option<nat>): Medication
  {
    base.(name := form.name, description := form.description,
      dosage := EntryNumber(form.dosage, parse), unit := form.unit,
      quantity := StoredQuantity(form.quantity, parse), category := StoredCategory(form.category),
      instructions := form.instructions, schedule := Some(DailySchedule(form.schedule)))
  }

  /** A loaded form passes validation exactly when the stored name is not blank and the
      stored dosage is a non-zero number: the unit is never empty after loading, and the
      quantity is a number or empty. */
  lemma LoadedFormValid(med: Medication, parse: string -> Option<nat>)
    ensures Problems(LoadForm(med), parse) == {} <==> !Blank(med.name) && Truthy(med.dosage)
  {
    PassesIff(LoadForm(med), parse);
  }

  /** Saving a loaded form unchanged keeps id, frequency and time stamps, writes a zero
      quantity as null, an empty unit as "pilula" and an empty category as null, and turns
      any schedule into a `daily` one with the same times. */
  lemma LoadThenSave(med: Medication, parse: string -> Option<nat>)
    requires Truthy(med.dosage)
    ensures var saved := EditPayload(med, LoadForm(med), parse);
      saved.id == med.id && saved.frequency == med.frequency &&
      saved.createdAt == med.createdAt && saved.updatedAt == med.updatedAt &&
      saved.name == med.name && saved.description == med.description &&
      saved.dosage == med.dosage && saved.instructions == med.instructions &&
      saved.quantity == (if Truthy(med.quantity) then med.quantity else None) &&
      saved.unit == (if med.unit == "" then "pilula" else med.unit) &&
      saved.category == (if med.category == Some("") then None else med.category) &&
      saved.schedule == Some(DailySchedule(TimesOf(med.schedule)))
  {
  }

  /** A medication in the form the pages write (a non-zero dosage, a null or non-zero
      quantity, a unit, a null or non-empty category and a `daily` schedule) is saved back
      unchanged. */
  lemma LoadSaveRoundTrip(med: Medication, ts: seq<Time>, parse: string -> Option<nat>)
    requires Truthy(med.dosage) && (med.quantity.None? || Truthy(med.quantity)) && med.unit != ""
    requires med.category != Some("")
    requires med.schedule == Some(DailySchedule(ts))
    ensures EditPayload(med, LoadForm(med), parse) == med
  {
    LoadThenSave(med, parse);
  }

  /** A medication taken on Mondays only is saved as one taken every day. */
  lemma SpecificDaysBecomeDaily(med: Medication, ts: seq<Time>, parse: string -> Option<nat>)
    requires med.schedule == Some(Tagged("specific-days", ["monday"], Some(ts)))
    ensures EditPayload(med, LoadForm(med), parse).schedule == Some(Tagged("daily", DayNames, Some(ts)))
  {
  }

  /** The page's state. */
  class EditPage {
    var medication: Option<Medication>
    var form: Form
    var scheduleTime: Option<Time>
    var errors: set<Field>
    var notFound: bool

    constructor ()
      ensures medication == None && !notFound
      ensures form == Form("", "", Text(""), "pill", Text(""), "", "", [])
      ensures scheduleTime == None && errors == {}
    {
      medication := None;
      form := Form("", "", Text(""), "pill", Text(""), "", "", []);
      scheduleTime := None;
      errors := {};
      notFound := false;
    }

    /** The load effect, run whenever the id or the medication list changes: nothing while
        the list is empty; a found medication is loaded into the form; an absent id sets
        `notFound` and leaves the rest as it was. */
    method Load(meds: seq<Medication>, id: Id)
      modifies this
      ensures LookupPage(meds, id).Pending? ==>
        medication == old(medication) && form == old(form) && notFound == old(notFound)
      ensures LookupPage(meds, id).Found? ==>
        medication == Some(LookupPage(meds, id).medication) && form == LoadForm(LookupPage(meds, id).medication) &&
        notFound == old(notFound)
      ensures LookupPage(meds, id).NotFound? ==>
        medication == old(medication) && form == old(form) && notFound
      ensures scheduleTime == old(scheduleTime) && errors == old(errors)
    {
      if |meds| > 0 {
        var med := FindMedication(meds, id);
        if med.Some? {
          var m := med.value;
          medication := Some(m);
          var dosage := if Truthy(m.dosage) then Num(m.dosage.value) else Text("");
          var unit := if m.unit == "" then "pilula" else m.unit;
          var quantity := if Truthy(m.quantity) then Num(m.quantity.value) else Text("");
          var category := if m.category.Some? then m.category.value else "";
          var times: seq<Time>;
          if m.schedule.Some? && m.schedule.value.Tagged? && m.schedule.value.times.Some? {
            times := m.schedule.value.times.value;
          } else if m.schedule.Some? && m.schedule.value.Legacy? {
            times := m.schedule.value.list;
          } else {
            times := [];
          }
          form := Form(m.name, m.description, dosage, unit, quantity, category, m.instructions, times);
        } else {
          notFound := true;
        }
      }
    }

    method PickTime(picked: Option<Time>)
      modifies this
      ensures scheduleTime == picked && form == old(form) && errors == old(errors)
      ensures medication == old(medication) && notFound == old(notFound)
    {
      scheduleTime := picked;
    }

    /** `handleAddSchedule`, as on the add page. A list loaded in chronological order stays so. */
    method HandleAddSchedule()
      modifies this
      ensures form == old(form).(schedule := AddScheduleTime(old(form.schedule), old(scheduleTime)))
      ensures Chronological(old(form.schedule)) ==> Chronological(form.schedule)
      ensures scheduleTime == None && errors == old(errors)
      ensures medication == old(medication) && notFound == old(notFound)
    {
      if scheduleTime.None? {
        return;
      }
      if Chronological(form.schedule) {
        AddKeepsChronological(form.schedule, scheduleTime);
      }
      form := form.(schedule := AddScheduleTime(form.schedule, scheduleTime));
      scheduleTime := None;
    }

    /** `handleRemoveSchedule(time)`, as on the add page. */
    method HandleRemoveSchedule(t: Time)
      modifies this
      ensures form == old(form).(schedule := RemoveScheduleTime(old(form.schedule), t))
      ensures Chronological(old(form.schedule)) ==> Chronological(form.schedule)
      ensures t !in form.schedule
      ensures scheduleTime == old(scheduleTime) && errors == old(errors)
      ensures medication == old(medication) && notFound == old(notFound)
    {
      if Chronological(form.schedule) {
        RemoveKeepsChronological(form.schedule, t);
      }
      RemoveDeletesOnly(form.schedule, t);
      form := form.(schedule := RemoveScheduleTime(form.schedule, t));
    }

    /** `handleSubmit`, reachable once a medication is loaded and not flagged as not found
        (the page shows the form only then): a failing form is not submitted; a passing one
        is written over the loaded medication and stored at clock reading `now`. */
    method HandleSubmit(store: Store, parse: string -> Option<nat>, now: Instant) returns (submitted: bool)
      requires medication.Some? && !notFound
      modifies this, store
      ensures errors == Problems(form, parse) && form == old(form)
      ensures medication == old(medication) && notFound == old(notFound) && scheduleTime == old(scheduleTime)
      ensures submitted <==> Problems(form, parse) == {}
      ensures !submitted ==> store.Snapshot() == old(store.Snapshot())
      ensures submitted ==>
        store.Snapshot() == Reduce(old(store.Snapshot()), Action.UpdateMedication(Stamped(EditPayload(medication.value, form, parse), now)))
    {
      errors := ValidateForm(form, parse);
      if errors != {} {
        return false;
      }
      store.UpdateMedication(EditPayload(medication.value, form, parse), now);
      submitted := true;
    }
  }
}
