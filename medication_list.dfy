/** The medication list page (src/pages/MedicationList.js): search, the taken/skipped badges
    of a medication today, and the days of stock left. */
module MedicationList {
  import opened Common
  import opened Medications
  import opened MedicationContext
  import Dashboard

  // ---------------------------------------------------------------------------------
  // Search

  /** `toLowerCase` on the characters the model knows: ASCII capitals become small letters. */
  function LowerChar(c: char): char
  {
    if 'A' <= c <= 'Z' then (c as int + 32) as char else c
  }

  function Lower(s: string): (r: string)
    ensures |r| == |s| && forall i :: 0 <= i < |s| ==> r[i] == LowerChar(s[i])
  {
    seq(|s|, i requires 0 <= i < |s| => LowerChar(s[i]))
  }

  /** `sub` occurs in `s` starting at index `i`. */
  predicate OccursAt(s: string, sub: string, i: int)
  {
    0 <= i <= |s| - |sub| && s[i..i + |sub|] == sub
  }

  /** `s.includes(sub)`. */
  predicate Contains(s: string, sub: string)
  {
    exists i :: 0 <= i <= |s| && OccursAt(s, sub, i)
  }

  /** Name, or a non-empty description, contains the term, ignoring case. */
  predicate MatchesSearch(med: Medication, term: string)
  {
    Contains(Lower(med.name), Lower(term)) ||
    (med.description != "" && Contains(Lower(med.description), Lower(term)))
  }

  /** The filtered list the page shows. */
  function Search(meds: seq<Medication>, term: string): seq<Medication>
  {
    Filter(meds, (m: Medication) => MatchesSearch(m, term))
  }

  /** The search keeps exactly the matching medications, in list order. */
  lemma SearchContents(meds: seq<Medication>, term: string)
    ensures Subsequence(Search(meds, term), meds)
    ensures forall i :: 0 <= i < |meds| ==> (meds[i] in Search(meds, term) <== MatchesSearch(meds[i], term))
    ensures forall m :: m in Search(meds, term) ==> m in meds && MatchesSearch(m, term)
  {
    FilterIsSubsequence(meds, (m: Medication) => MatchesSearch(m, term));
  }

  /** The empty term keeps every medication. */
  lemma SearchEmptyKeepsAll(meds: seq<Medication>)
    ensures Search(meds, "") == meds
  {
    forall i | 0 <= i < |meds| ensures MatchesSearch(meds[i], "") {
      assert OccursAt(Lower(meds[i].name), Lower(""), 0);
    }
    FilterAll(meds, (m: Medication) => MatchesSearch(m, ""));
  }

  lemma LowerIdempotent(s: string)
    ensures Lower(Lower(s)) == Lower(s)
  {
  }

  /** The case of the term does not matter: searching its lower-case form finds the same. */
  lemma SearchIgnoresTermCase(meds: seq<Medication>, term: string)
    ensures Search(meds, Lower(term)) == Search(meds, term)
  {
    LowerIdempotent(term);
    FilterAgree(meds, (m: Medication) => MatchesSearch(m, Lower(term)), (m: Medication) => MatchesSearch(m, term));
  }

  // ---------------------------------------------------------------------------------
  // Taken / skipped badges

  /** The times the status check runs over: none for a missing medication or schedule. */
  function StatusTimes(meds: seq<Medication>, medId: Id): seq<Time>
  {
    match FindMedication(meds, medId)
    case None => []
    case Some(m) => TimesOf(m.schedule)
  }

  /** Some listed time of the medication is matched today by a record with this flag. */
  predicate CheckedIn(history: seq<Record>, medId: Id, ts: seq<Time>, now: Instant, taken: bool)
  {
    exists k :: 0 <= k < |ts| && MatchOccurrence(history, medId, Some(ts[k]), now).Some? &&
      MatchOccurrence(history, medId, Some(ts[k]), now).value.taken == taken
  }

  /** One more time checked: the badge is lit when it was, or when that time is matched by a
      record with the flag. */
  lemma CheckedInSnoc(history: seq<Record>, medId: Id, ts: seq<Time>, k: nat, now: Instant, taken: bool)
    requires k < |ts|
    ensures CheckedIn(history, medId, ts[..k + 1], now, taken) <==>
      CheckedIn(history, medId, ts[..k], now, taken) ||
      (MatchOccurrence(history, medId, Some(ts[k]), now).Some? &&
       MatchOccurrence(history, medId, Some(ts[k]), now).value.taken == taken)
  {
    assert forall j :: 0 <= j < k ==> ts[..k + 1][j] == ts[..k][j];
    assert ts[..k + 1][k] == ts[k];
  }

  /** `getMedicationStatus(medicationId)` at clock reading `now`: `taken` when some time is
      matched by a taken record, `skipped` when some time is matched by a skipped one; both
      false for a missing medication, schedule or list of times. */
  method GetMedicationStatus(store: Store, medId: Id, now: Instant) returns (taken: bool, skipped: bool)
    ensures taken <==> CheckedIn(store.history, medId, StatusTimes(store.medications, medId), now, true)
    ensures skipped <==> CheckedIn(store.history, medId, StatusTimes(store.medications, medId), now, false)
  {
    var medication := FindMedication(store.medications, medId);
    if medication.None? || medication.value.schedule.None? {
      return false, false;
    }
    var scheduleTimes := TimesOf(medication.value.schedule);
    if |scheduleTimes| == 0 {
      return false, false;
    }
    taken, skipped := false, false;
    for k := 0 to |scheduleTimes|
      invariant taken <==> CheckedIn(store.history, medId, scheduleTimes[..k], now, true)
      invariant skipped <==> CheckedIn(store.history, medId, scheduleTimes[..k], now, false)
    {
      var status := store.CheckMedicationTaken(medId, Some(scheduleTimes[k]), now);
      CheckedInSnoc(store.history, medId, scheduleTimes, k, now, true);
      CheckedInSnoc(store.history, medId, scheduleTimes, k, now, false);
      if status.Some? {
        if status.value.taken {
          taken := true;
        } else {
          skipped := true;
        }
      }
    }
    assert scheduleTimes[..|scheduleTimes|] == scheduleTimes;
  }

  /** A dose taken at 08:00 and one skipped at 20:00 light both badges at once. */
  lemma BothBadges(medId: Id, day: int, now: MillisOfDay)
    requires medId != ""
    ensures var h := [Record("a", medId, Instant(day, MillisAt(Time(8, 0))), true),
                      Record("b", medId, Instant(day, MillisAt(Time(20, 0))), false)];
      var ts := [Time(8, 0), Time(20, 0)];
      CheckedIn(h, medId, ts, Instant(day, now), true) && CheckedIn(h, medId, ts, Instant(day, now), false)
  {
    var h := [Record("a", medId, Instant(day, MillisAt(Time(8, 0))), true),
              Record("b", medId, Instant(day, MillisAt(Time(20, 0))), false)];
    var ts := [Time(8, 0), Time(20, 0)];
    var onDay := (r: Record) => OnDay(r, medId, day);
    assert DayRecords(h, medId, day) == h by {
      assert Filter(h[1..][1..], onDay) == [];
      assert Filter(h[1..], onDay) == [h[1]] + Filter(h[1..][1..], onDay);
      assert Filter(h, onDay) == [h[0]] + Filter(h[1..], onDay);
    }
    assert h[1..] == [h[1]];
    assert !WithinTolerance(h[0], ts[1]);
    assert MatchOccurrence(h, medId, Some(ts[0]), Instant(day, now)) == Some(Status(true, "a"));
    assert MatchOccurrence(h, medId, Some(ts[1]), Instant(day, now)) == Some(Status(false, "b"));
  }

  // ---------------------------------------------------------------------------------
  // Days of stock

  /** `calculateDaysRemaining`: null unless quantity, dosage and a truthy `schedule.length`
      (a non-empty legacy array) are present; otherwise the whole days the stock lasts. */
  function DaysRemaining(med: Medication): (r: Option<nat>)
    ensures r.None? <==> !Truthy(med.quantity) || !Truthy(med.dosage) || !Truthy(ArrayLength(med.schedule))
    ensures r.Some? ==> var daily := med.dosage.value * ArrayLength(med.schedule).value;
      r.value * daily <= med.quantity.value < (r.value + 1) * daily
  {
    if !Truthy(med.quantity) || !Truthy(med.dosage) || !Truthy(ArrayLength(med.schedule)) then None
    else
      var daily := med.dosage.value * ArrayLength(med.schedule).value;
      Some(FloorDiv(med.quantity.value, daily))
  }

  /** The card's warning: fewer than 7 whole days left. */
  predicate IsLowStock(med: Medication)
  {
    DaysRemaining(med).Some? && DaysRemaining(med).value < 7
  }

  /** The list flags exactly the medications the overview's low-stock list holds. */
  lemma IsLowStockAgreesWithDashboard(med: Medication)
    ensures IsLowStock(med) <==> Dashboard.LowStock(med)
  {
    if DaysRemaining(med).Some? {
      FloorDivBelow(med.quantity.value, med.dosage.value * ArrayLength(med.schedule).value, 7);
    }
  }
}
