/** The page that creates a medication (src/pages/AddMedication.js): the form state, the
    handlers that edit the list of times, and the submit that validates the form and hands
    the new medication to the store. */
module AddMedicationPage {
  import opened Common
  import opened Medications
  import opened MedicationContext
  import opened MedicationForm
  import ClientDashboard
  import Notifications

  /** The medication `handleSubmit` builds: the typed fields, the numbers read from the
      dosage and quantity fields, and a `daily` schedule with the listed times. The object
      has no id, frequency or time stamps; the store adds id and creation time. */
  function AddPayload(form: Form, parse: string -> Option<nat>): Medication
  {
    Medication("", form.name, form.description, EntryNumber(form.dosage, parse), form.unit,
      StoredQuantity(form.quantity, parse), StoredCategory(form.category), form.instructions,
      Some(DailySchedule(form.schedule)), "", None, None)
  }

  /** What the store then holds for a submitted form: the fresh id, the typed fields, the
      listed times read back by every page, a blank quantity or category stored as null, and
      a schedule that the patient's home page lists and the reminder scanner scans on every
      weekday. */
  lemma SubmittedReadsBack(form: Form, parse: string -> Option<nat>, freshId: Id, now: Instant)
    ensures var m := NewMedication(AddPayload(form, parse), freshId, now);
      m.id == freshId && m.createdAt == Some(now) && m.updatedAt == None &&
      m.name == form.name && m.unit == form.unit && m.dosage == EntryNumber(form.dosage, parse) &&
      TimesOf(m.schedule) == form.schedule &&
      (m.quantity.None? <== !EntryTruthy(form.quantity)) &&
      (m.category.None? <==> form.category == "") &&
      (forall d :: 0 <= d < 7 ==> ClientDashboard.ListedToday(m, DayNames[d])) &&
      (forall d :: 0 <= d < 7 && form.schedule != [] ==>
         Notifications.ScanTimes(m.schedule, DayNames[d]) == Some(form.schedule))
  {
  }

  /** The page's state. `form.unit` starts as "pill", the other text fields as "". */
  class AddPage {
    var form: Form
    var scheduleTime: Option<Time>
    var errors: set<Field>

    /** The listed times are in chronological order, without repeats. */
    predicate Valid()
      reads this
    {
      Chronological(form.schedule)
    }

    constructor ()
      ensures form == Form("", "", Text(""), "pill", Text(""), "", "", [])
      ensures scheduleTime == None && errors == {}
      ensures Valid()
    {
      form := Form("", "", Text(""), "pill", Text(""), "", "", []);
      scheduleTime := None;
      errors := {};
    }

    /** The time picker's `onChange`. */
    method PickTime(picked: Option<Time>)
      modifies this
      ensures scheduleTime == picked && form == old(form) && errors == old(errors)
    {
      scheduleTime := picked;
    }

    /** `handleAddSchedule`: nothing without a picked time; otherwise the time is added when
        it is not yet listed, and the picker is cleared. */
    method HandleAddSchedule()
      requires Valid()
      modifies this
      ensures Valid()
      ensures form == old(form).(schedule := AddScheduleTime(old(form.schedule), old(scheduleTime)))
      ensures scheduleTime == None && errors == old(errors)
      ensures old(scheduleTime).Some? ==> old(scheduleTime).value in form.schedule
    {
      if scheduleTime.None? {
        return;
      }
      AddKeepsChronological(form.schedule, scheduleTime);
      form := form.(schedule := AddScheduleTime(form.schedule, scheduleTime));
      scheduleTime := None;
    }

    /** `handleRemoveSchedule(time)`. */
    method HandleRemoveSchedule(t: Time)
      requires Valid()
      modifies this
      ensures Valid()
      ensures form == old(form).(schedule := RemoveScheduleTime(old(form.schedule), t))
      ensures t !in form.schedule
      ensures scheduleTime == old(scheduleTime) && errors == old(errors)
    {
      RemoveKeepsChronological(form.schedule, t);
      RemoveDeletesOnly(form.schedule, t);
      form := form.(schedule := RemoveScheduleTime(form.schedule, t));
    }

    /** `handleSubmit`: the errors are shown; a failing form is not submitted; a passing one
        is added to the store with the id `freshId` at clock reading `now`. */
    method HandleSubmit(store: Store, parse: string -> Option<nat>, freshId: Id, now: Instant)
      returns (submitted: bool)
      modifies this, store
      ensures errors == Problems(form, parse) && form == old(form) && scheduleTime == old(scheduleTime)
      ensures submitted <==> Problems(form, parse) == {}
      ensures !submitted ==> store.Snapshot() == old(store.Snapshot())
      ensures submitted ==>
        store.Snapshot() == old(store.Snapshot()).(medications := old(store.medications) + [NewMedication(AddPayload(form, parse), freshId, now)])
    {
      errors := ValidateForm(form, parse);
      if errors != {} {
        return false;
      }
      store.AddMedication(AddPayload(form, parse), freshId, now);
      submitted := true;
    }
  }
}
