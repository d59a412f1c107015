/** The detail page of one medication (src/pages/MedicationDetails.js): the lookup of the
    route's id, the days of stock left, the low-stock warnings and the list of times. */
module MedicationDetails {
  import opened Common
  import opened Medications
  import MedicationList

  // ---------------------------------------------------------------------------------
  // Lookup

  /** The page's two pieces of state set by the lookup. */
  datatype DetailsState = DetailsState(medication: Option<Medication>, notFound: bool)

  const Initial := DetailsState(None, false)

  /** The effect that runs whenever the id or the medication list changes: nothing while the
      list is empty; a found medication is shown; an absent id sets `notFound`, which is never
      cleared, and leaves the medication shown before in place. */
  function LoadEffect(st: DetailsState, meds: seq<Medication>, id: Id): (r: DetailsState)
    ensures LookupPage(meds, id).Pending? ==> r == st
    ensures LookupPage(meds, id).Found? ==> r == st.(medication := Some(LookupPage(meds, id).medication))
    ensures LookupPage(meds, id).NotFound? ==> r == st.(notFound := true)
  {
    if |meds| > 0 then
      match FindMedication(meds, id)
      case Some(med) => st.(medication := Some(med))
      case None => st.(notFound := true)
    else st
  }

  /** On a freshly opened page, one run of the effect sets `notFound` exactly when the list is
      non-empty and holds no medication with the id, and shows a medication of the list with
      that id otherwise (once the list is non-empty). */
  lemma FirstLoad(meds: seq<Medication>, id: Id)
    ensures LoadEffect(Initial, meds, id).notFound <==>
      |meds| > 0 && forall i :: 0 <= i < |meds| ==> meds[i].id != id
    ensures LoadEffect(Initial, meds, id).medication.Some? <==>
      exists i :: 0 <= i < |meds| && meds[i].id == id
    ensures LoadEffect(Initial, meds, id).medication.Some? ==>
      LoadEffect(Initial, meds, id).medication.value in meds && LoadEffect(Initial, meds, id).medication.value.id == id
  {
  }

  /** Once set, `notFound` stays set whatever the later lists: the page keeps showing the
      not-found message even when the medication appears later. */
  lemma NotFoundSticks(st: DetailsState, meds: seq<Medication>, id: Id)
    requires st.notFound
    ensures LoadEffect(st, meds, id).notFound
  {
  }

  /** A medication deleted from the list after it was shown is still held, beside `notFound`. */
  lemma DeletedKeepsStaleMedication(med: Medication, other: Medication)
    requires other.id != med.id
    ensures LoadEffect(LoadEffect(Initial, [med], med.id), [other], med.id) == DetailsState(Some(med), true)
  {
    assert FindMedication([med], med.id) == Some(med);
    assert FindMedication([other], med.id) == None;
  }

  // ---------------------------------------------------------------------------------
  // Days of stock

  /** The page's times list: `schedule.times` when it is an array, else the legacy array, else
      nothing. */
  function DisplayedTimes(s: Option<Schedule>): (r: seq<Time>)
    ensures r == TimesOf(s)
  {
    if s.Some? && s.value.Tagged? && s.value.times.Some? then s.value.times.value
    else if s.Some? && s.value.Legacy? then s.value.list
    else []
  }

  /** `dailyDoses`: 1 by default, else the length of `schedule.times` when it is an array,
      else the length of a legacy array. An empty array is truthy, so it gives 0. */
  function DailyDoses(s: Option<Schedule>): nat
  {
    match s
    case None => 1
    case Some(Legacy(list)) => |list|
    case Some(Tagged(_, _, times)) => if times.Some? then |times.value| else 1
  }

  /** The count of daily doses is the count of listed times, except for a missing schedule and
      a schedule object without times, which count one dose and list none. */
  lemma DailyDosesCountsDisplayedTimes(s: Option<Schedule>)
    ensures (s.None? || (s.value.Tagged? && s.value.times.None?)) ==>
      DailyDoses(s) == 1 && DisplayedTimes(s) == []
    ensures !(s.None? || (s.value.Tagged? && s.value.times.None?)) ==>
      DailyDoses(s) == |DisplayedTimes(s)|
  {
  }

  /** The result of `calculateDaysRemaining`: `null`, the `Infinity` of a division by zero
      doses, or whole days. */
  datatype DaysLeft = Unknown | Endless | Days(n: nat)

  /** `Math.floor(quantity / (dosage * dailyDoses))`, after the test of quantity and dosage. */
  function DaysRemaining(med: Medication): (r: DaysLeft)
    ensures r.Unknown? <==> !Truthy(med.quantity) || !Truthy(med.dosage)
    ensures r.Endless? <==> Truthy(med.quantity) && Truthy(med.dosage) && DailyDoses(med.schedule) == 0
    ensures r.Days? ==> var daily := med.dosage.value * DailyDoses(med.schedule);
      daily > 0 && r.n * daily <= med.quantity.value < (r.n + 1) * daily
  {
    if !Truthy(med.quantity) || !Truthy(med.dosage) then Unknown
    else
      var daily := med.dosage.value * DailyDoses(med.schedule);
      if daily == 0 then Endless
      else
        Days(FloorDiv(med.quantity.value, daily))
  }

  /** `isLowStock`: days known and fewer than 7 (`Infinity < 7` is false). */
  predicate IsLowStock(med: Medication)
  {
    DaysRemaining(med).Days? && DaysRemaining(med).n < 7
  }

  /** The error colour of the warning: fewer than 3 days. */
  predicate IsCritical(med: Medication)
  {
    IsLowStock(med) && DaysRemaining(med).n < 3
  }

  /** The warning shows exactly when the stock covers fewer than 7 days of doses, and in the
      error colour exactly when it covers fewer than 3. */
  lemma LowStockThresholds(med: Medication)
    ensures IsLowStock(med) <==>
      (Truthy(med.quantity) && Truthy(med.dosage) && DailyDoses(med.schedule) > 0 &&
       med.quantity.value < 7 * (med.dosage.value * DailyDoses(med.schedule)))
    ensures IsCritical(med) <==>
      (Truthy(med.quantity) && Truthy(med.dosage) && DailyDoses(med.schedule) > 0 &&
       med.quantity.value < 3 * (med.dosage.value * DailyDoses(med.schedule)))
  {
    if Truthy(med.quantity) && Truthy(med.dosage) && DailyDoses(med.schedule) > 0 {
      var daily := med.dosage.value * DailyDoses(med.schedule);
      FloorDivBelow(med.quantity.value, daily, 7);
      FloorDivBelow(med.quantity.value, daily, 3);
    }
  }

  /** For a non-empty legacy array the detail page and the list page compute the same days;
      for a schedule object with times, the list page shows none and the detail page does. */
  lemma AgreesWithListPage(med: Medication)
    ensures med.schedule.Some? && med.schedule.value.Legacy? && med.schedule.value.list != [] ==>
      (MedicationList.DaysRemaining(med).None? <==> DaysRemaining(med).Unknown?) &&
      (MedicationList.DaysRemaining(med).Some? ==> DaysRemaining(med) == Days(MedicationList.DaysRemaining(med).value))
    ensures med.schedule.Some? && med.schedule.value.Tagged? ==> MedicationList.DaysRemaining(med).None?
  {
    if med.schedule.Some? && med.schedule.value.Legacy? && med.schedule.value.list != [] &&
       MedicationList.DaysRemaining(med).Some? {
      assert DailyDoses(med.schedule) == ArrayLength(med.schedule).value;
    }
  }
}
