/** Travel provisioning (src/pages/TravelMode.js): how many units of each selected medication
    a trip needs, whether the stock covers it, and the selection of medications. */
module Travel {
  import opened Common
  import opened Medications

  /** One row of the travel plan. */
  datatype PlanEntry = PlanEntry(
    id: Id,
    name: string,
    dosage: Option<nat>,
    unit: string,
    dosesPerDay: nat,
    pillsPerDose: nat,
    totalPills: int,
    hasEnoughStock: bool,
    currentStock: nat)

  /** The classifier of the free-text `frequency` field. */
  function FrequencyDoses(frequency: string): (r: nat)
    ensures r <= 4
    ensures r == 0 <==> frequency !in {"daily", "twice daily", "three times daily", "four times daily"}
  {
    if frequency == "daily" then 1
    else if frequency == "twice daily" then 2
    else if frequency == "three times daily" then 3
    else if frequency == "four times daily" then 4
    else 0
  }

  /** `schedule.length` when the schedule is a non-empty array, else the frequency classifier;
      a schedule object has no `length` and so falls back to the frequency. */
  function DosesPerDay(med: Medication): nat
  {
    var n := ArrayLength(med.schedule);
    if n.Some? && n.value > 0 then n.value else FrequencyDoses(med.frequency)
  }

  /** `medication.dosage || 1`. */
  function PillsPerDose(med: Medication): (r: nat)
    ensures r >= 1
    ensures Truthy(med.dosage) ==> r == med.dosage.value
  {
    if Truthy(med.dosage) then med.dosage.value else 1
  }

  /** The number that `quantity` stands for in `quantity >= totalPills` and in
      `quantity || 0`: a null quantity compares as 0. */
  function StockOf(med: Medication): nat
  {
    if med.quantity.Some? then med.quantity.value else 0
  }

  /** Days the trip covers: the whole days from start to end, plus one, plus the buffer. */
  function TotalDays(dayDifference: int, buffer: nat): int
  {
    dayDifference + 1 + buffer
  }

  function PlanFor(med: Medication, totalDays: int): (e: PlanEntry)
    ensures e.id == med.id && e.dosesPerDay == DosesPerDay(med) && e.pillsPerDose == PillsPerDose(med)
    ensures e.totalPills == DosesPerDay(med) * totalDays * PillsPerDose(med)
    ensures e.hasEnoughStock <==> StockOf(med) >= e.totalPills
    ensures e.currentStock == StockOf(med)
  {
    var total := DosesPerDay(med) * totalDays * PillsPerDose(med);
    PlanEntry(med.id, med.name, med.dosage, med.unit, DosesPerDay(med), PillsPerDose(med), total,
      StockOf(med) >= total, StockOf(med))
  }

  /** `selectedMedications.map(find ...).filter(Boolean)`: one entry per selected id that is
      found, in selection order. */
  function PlanEntries(meds: seq<Medication>, selected: seq<Id>, totalDays: int): (r: seq<PlanEntry>)
    ensures |r| <= |selected|
    ensures forall i :: 0 <= i < |r| ==>
      FindMedication(meds, r[i].id).Some? && r[i] == PlanFor(FindMedication(meds, r[i].id).value, totalDays)
  {
    if selected == [] then []
    else
      var head := match FindMedication(meds, selected[0])
        case Some(m) => [PlanFor(m, totalDays)]
        case None => [];
      head + PlanEntries(meds, selected[1..], totalDays)
  }

  /** `calculateTravelPlan` for a trip whose end is `dayDifference` whole days after its start. */
  function CalculateTravelPlan(meds: seq<Medication>, selected: seq<Id>, dayDifference: int, buffer: nat): seq<PlanEntry>
  {
    PlanEntries(meds, selected, TotalDays(dayDifference, buffer))
  }

  function PlanIds(plan: seq<PlanEntry>): seq<Id>
  {
    seq(|plan|, i requires 0 <= i < |plan| => plan[i].id)
  }

  /** The plan's ids are the selected ids that name a medication, in selection order. */
  lemma {:induction false} PlanFollowsSelection(meds: seq<Medication>, selected: seq<Id>, totalDays: int)
    ensures PlanIds(PlanEntries(meds, selected, totalDays)) == Filter(selected, (id: Id) => FindMedication(meds, id).Some?)
  {
    var known := (id: Id) => FindMedication(meds, id).Some?;
    if selected != [] {
      PlanFollowsSelection(meds, selected[1..], totalDays);
      var rest := PlanEntries(meds, selected[1..], totalDays);
      var head := if known(selected[0]) then [PlanFor(FindMedication(meds, selected[0]).value, totalDays)] else [];
      assert PlanEntries(meds, selected, totalDays) == head + rest;
      assert Filter(selected, known) == (if known(selected[0]) then [selected[0]] else []) + Filter(selected[1..], known);
      PlanIdsAppend(head, rest);
      assert PlanIds(head) == (if known(selected[0]) then [selected[0]] else []);
    }
  }

  lemma PlanIdsAppend(a: seq<PlanEntry>, b: seq<PlanEntry>)
    ensures PlanIds(a + b) == PlanIds(a) + PlanIds(b)
  {
  }

  /** The scenario of a four-day trip with two buffer days for a medication taken once at
      08:00 and once at 20:00 (a list of times), one unit a dose, ten in stock: twelve units
      are needed and the stock does not cover them. */
  lemma FourDayTripScenario(med: Medication)
    requires med.schedule == Some(Legacy([Time(8, 0), Time(20, 0)]))
    requires med.dosage == Some(1) && med.quantity == Some(10)
    ensures CalculateTravelPlan([med], [med.id], 3, 2) ==
      [PlanEntry(med.id, med.name, Some(1), med.unit, 2, 1, 12, false, 10)]
  {
  }

  /** The same medication stored with a schedule object needs nothing when its frequency
      text is empty: the object has no `length`, so the doses per day come from the
      frequency classifier; a number or a null quantity then covers the need. */
  lemma TaggedScheduleCountsFrequency(med: Medication, days: seq<string>, ts: seq<Time>)
    requires med.schedule == Some(Tagged("daily", days, Some(ts)))
    ensures DosesPerDay(med) == FrequencyDoses(med.frequency)
    ensures med.frequency == "" ==> PlanFor(med, 6).totalPills == 0 && PlanFor(med, 6).hasEnoughStock
  {
  }

  /** The range is not checked: an end date before the start gives a non-positive number of
      days, and then every entry whose quantity is a number or null reports enough stock. */
  lemma ReversedRangeAlwaysSuffices(meds: seq<Medication>, selected: seq<Id>, dayDifference: int, buffer: nat)
    requires TotalDays(dayDifference, buffer) <= 0
    ensures var r := CalculateTravelPlan(meds, selected, dayDifference, buffer);
      forall i :: 0 <= i < |r| ==> r[i].totalPills <= 0 && r[i].hasEnoughStock
  {
    var total := TotalDays(dayDifference, buffer);
    var r := CalculateTravelPlan(meds, selected, dayDifference, buffer);
    forall i | 0 <= i < |r| ensures r[i].totalPills <= 0 && r[i].hasEnoughStock {
      var m := FindMedication(meds, r[i].id).value;
      NonPositiveProduct(DosesPerDay(m), total, PillsPerDose(m));
    }
  }

  lemma NonPositiveProduct(a: nat, b: int, c: nat)
    requires b <= 0
    ensures a * b * c <= 0
  {
    assert a * b <= 0;
  }

  // ---------------------------------------------------------------------------------
  // Selection

  /** `handleMedicationToggle(id)`: remove the id if selected, else append it. */
  function Toggle(selected: seq<Id>, id: Id): seq<Id>
  {
    if id in selected then Filter(selected, (x: Id) => x != id) else selected + [id]
  }

  /** After a toggle, an id is selected exactly when it was before, except the toggled one,
      which flips. */
  lemma ToggleFlips(selected: seq<Id>, id: Id, x: Id)
    ensures x in Toggle(selected, id) <==> (if x == id then id !in selected else x in selected)
  {
  }

  /** Toggling an unselected id twice restores the selection; a selected one comes back at
      the end. */
  lemma {:induction false} ToggleTwice(selected: seq<Id>, id: Id)
    ensures id !in selected ==> Toggle(Toggle(selected, id), id) == selected
    ensures id in selected ==> Toggle(Toggle(selected, id), id) == Filter(selected, (x: Id) => x != id) + [id]
  {
    var drop := (x: Id) => x != id;
    if id !in selected {
      FilterAppend(selected, [id], drop);
      FilterAll(selected, drop);
    }
  }

  /** Toggling never repeats an id. */
  lemma ToggleNoDuplicates(selected: seq<Id>, id: Id)
    requires NoDuplicates(selected)
    ensures NoDuplicates(Toggle(selected, id))
  {
    if id in selected {
      FilterNoDuplicates(selected, (x: Id) => x != id);
    }
  }

  /** `handleSelectAll`: clear when as many ids are selected as there are medications,
      otherwise select every medication's id in list order. */
  function SelectAll(selected: seq<Id>, meds: seq<Medication>): (r: seq<Id>)
    ensures |selected| == |meds| ==> r == []
    ensures |selected| != |meds| ==> r == Ids(meds, MedicationId)
  {
    if |selected| == |meds| then [] else Ids(meds, MedicationId)
  }

  /** The button compares lengths, not ids: with one medication deleted after another was
      selected, "select all" clears a selection that does not hold every medication. */
  lemma SelectAllComparesLengths(a: Medication, b: Medication)
    requires a.id != b.id
    ensures SelectAll(["gone"], [a]) == [] && SelectAll([a.id], [a, b]) == [a.id, b.id]
  {
  }

  /** Pressing the button twice from a partial selection selects everything, then nothing. */
  lemma SelectAllTwice(selected: seq<Id>, meds: seq<Medication>)
    requires |selected| != |meds|
    ensures SelectAll(SelectAll(selected, meds), meds) == []
  {
  }
}
