/** The overview page (src/pages/Dashboard.js): the medications with a dose in the next 24
    hours, each with its next dose, ordered by that dose; and the medications with less than
    a week of stock. */
module Dashboard {
  import opened Common
  import opened Sorting
  import opened Medications

  /** A time's next occurrence: today at that time, or the same time tomorrow when today's
      has already passed. */
  function NextOccurrence(t: Time, now: Instant): Instant
  {
    if MillisAt(t) < now.millis then Instant(now.day + 1, MillisAt(t)) else Instant(now.day, MillisAt(t))
  }

  /** The next occurrence on the single time line. */
  function Occurs(t: Time, now: Instant): int { Absolute(NextOccurrence(t, now)) }

  /** The next occurrence falls at the time itself... */
  lemma NextOccurrenceAtTime(t: Time, now: Instant)
    ensures NextOccurrence(t, now).millis == MillisAt(t)
    ensures HourOf(NextOccurrence(t, now)) == t.hour && MinuteOf(NextOccurrence(t, now)) == t.minute
  {
    MillisAtClock(t, NextOccurrence(t, now).day);
  }

  /** ... not before `now` and less than 24 hours after it. */
  lemma NextOccurrenceWithinDay(t: Time, now: Instant)
    ensures Absolute(now) <= Occurs(t, now) < Absolute(now) + MillisPerDay
  {
  }

  /** The page's filter: a schedule with a truthy `length` (a non-empty legacy array) with some
      time whose next occurrence is at most 24 hours away. */
  predicate HasUpcomingDose(med: Medication, now: Instant)
  {
    Truthy(ArrayLength(med.schedule)) &&
    exists k :: 0 <= k < |med.schedule.value.list| && Occurs(med.schedule.value.list[k], now) <= Absolute(now) + MillisPerDay
  }

  /** The 24-hour test never fails: the filter keeps exactly the non-empty legacy arrays, and
      no schedule object. */
  lemma HasUpcomingDoseIff(med: Medication, now: Instant)
    ensures HasUpcomingDose(med, now) <==> med.schedule.Some? && med.schedule.value.Legacy? && med.schedule.value.list != []
  {
    if med.schedule.Some? && med.schedule.value.Legacy? && med.schedule.value.list != [] {
      NextOccurrenceWithinDay(med.schedule.value.list[0], now);
    }
  }

  /** The time the `forEach` loop settles on as the next dose: a later time replaces the
      current choice only when its next occurrence is strictly earlier. */
  function NextDoseOf(ts: seq<Time>, now: Instant): Option<Time>
  {
    FirstMinBy(ts, (t: Time) => Occurs(t, now))
  }

  /** The next dose is the listed time with the earliest next occurrence; of several with that
      occurrence, the first listed. */
  lemma NextDoseIsFirstEarliest(ts: seq<Time>, now: Instant)
    requires ts != []
    ensures exists i ::
      (0 <= i < |ts| && NextDoseOf(ts, now) == Some(ts[i]) &&
       (forall j :: 0 <= j < |ts| ==> Occurs(ts[i], now) <= Occurs(ts[j], now)) &&
       (forall j :: 0 <= j < i ==> Occurs(ts[i], now) < Occurs(ts[j], now)))
  {
    var i := FirstMinIndex(ts, (t: Time) => Occurs(t, now));
    assert NextDoseOf(ts, now) == Some(ts[i]);
  }

  /** The `forEach` over the schedule that keeps `nextDose` and `nextDoseTime`. */
  method NextDose(ts: seq<Time>, now: Instant) returns (nextDose: Option<Time>, nextDoseTime: Option<Instant>)
    ensures nextDose == NextDoseOf(ts, now)
    ensures nextDoseTime.Some? <==> nextDose.Some?
    ensures nextDose.Some? ==> nextDoseTime.value == NextOccurrence(nextDose.value, now)
  {
    nextDose, nextDoseTime := None, None;
    for i := 0 to |ts|
      invariant nextDose == NextDoseOf(ts[..i], now)
      invariant nextDoseTime.Some? <==> nextDose.Some?
      invariant nextDose.Some? ==> nextDoseTime.value == NextOccurrence(nextDose.value, now)
    {
      var t := ts[i];
      var scheduleDate := NextOccurrence(t, now);
      assert ts[..i + 1] == ts[..i] + [t];
      FirstMinBySnoc(ts[..i], t, (t: Time) => Occurs(t, now));
      if nextDoseTime.None? || Absolute(scheduleDate) < Absolute(nextDoseTime.value) {
        nextDose := Some(t);
        nextDoseTime := Some(scheduleDate);
      }
    }
    assert ts[..|ts|] == ts;
  }

  /** A row of the upcoming list: the medication (spread) with its next dose. */
  datatype UpcomingRow = UpcomingRow(medication: Medication, nextDose: Time, nextDoseTime: Instant)

  function UpcomingOf(med: Medication, now: Instant): UpcomingRow
    requires HasUpcomingDose(med, now)
  {
    var d := NextDoseOf(med.schedule.value.list, now).value;
    UpcomingRow(med, d, NextOccurrence(d, now))
  }

  function UpcomingKey(r: UpcomingRow): int { Absolute(r.nextDoseTime) }

  /** The page's upcoming list: the medications that pass the filter, each with its next dose,
      in the order of `map`, before sorting. */
  function UpcomingRows(meds: seq<Medication>, now: Instant): (r: seq<UpcomingRow>)
  {
    var due := Filter(meds, (m: Medication) => HasUpcomingDose(m, now));
    seq(|due|, i requires 0 <= i < |due| => UpcomingOf(due[i], now))
  }

  /** A medication's row shows one of its times, due within the next 24 hours. */
  lemma UpcomingOfDue(med: Medication, now: Instant)
    requires HasUpcomingDose(med, now)
    ensures med.schedule.value.Legacy? && UpcomingOf(med, now).medication == med
    ensures UpcomingOf(med, now).nextDose in med.schedule.value.list
    ensures UpcomingOf(med, now).nextDoseTime == NextOccurrence(UpcomingOf(med, now).nextDose, now)
    ensures Absolute(now) <= Absolute(UpcomingOf(med, now).nextDoseTime) < Absolute(now) + MillisPerDay
  {
    var ts := med.schedule.value.list;
    var i := FirstMinIndex(ts, (t: Time) => Occurs(t, now));
    assert UpcomingOf(med, now).nextDose == ts[i];
    NextOccurrenceWithinDay(ts[i], now);
  }

  /** Each row of the sorted upcoming list is the row of a medication of the list that passes
      the filter; the list is ordered by the next dose's instant. */
  lemma UpcomingRowSound(meds: seq<Medication>, now: Instant, row: UpcomingRow)
    requires row in SortBy(UpcomingRows(meds, now), UpcomingKey)
    ensures SortedBy(SortBy(UpcomingRows(meds, now), UpcomingKey), UpcomingKey)
    ensures row.medication in meds && HasUpcomingDose(row.medication, now)
    ensures row == UpcomingOf(row.medication, now)
  {
    var rows := UpcomingRows(meds, now);
    var due := Filter(meds, (m: Medication) => HasUpcomingDose(m, now));
    SortByPermutes(rows, UpcomingKey);
    assert row in multiset(SortBy(rows, UpcomingKey));
    assert row in multiset(rows);
    var i :| 0 <= i < |rows| && rows[i] == row;
    assert due[i] in meds && HasUpcomingDose(due[i], now);
    UpcomingOfDue(due[i], now);
  }

  /** Every medication that passes the filter has its row in the list. */
  lemma UpcomingRowComplete(meds: seq<Medication>, now: Instant, i: nat)
    requires i < |meds| && HasUpcomingDose(meds[i], now)
    ensures UpcomingOf(meds[i], now) in SortBy(UpcomingRows(meds, now), UpcomingKey)
  {
    var rows := UpcomingRows(meds, now);
    var due := Filter(meds, (m: Medication) => HasUpcomingDose(m, now));
    SortByPermutes(rows, UpcomingKey);
    var j :| 0 <= j < |due| && due[j] == meds[i];
    assert rows[j] == UpcomingOf(meds[i], now);
    assert rows[j] in multiset(rows);
  }

  /** The low-stock filter: quantity, dosage and schedule truthy and `quantity / (dosage *
      schedule.length) < 7` on exact numbers. A schedule object has no `length`, so the
      quotient is NaN, and an empty array divides by zero, giving Infinity: neither is below 7. */
  predicate LowStock(med: Medication)
  {
    Truthy(med.quantity) && Truthy(med.dosage) && med.schedule.Some? &&
    Truthy(ArrayLength(med.schedule)) &&
    med.quantity.value < 7 * (med.dosage.value * ArrayLength(med.schedule).value)
  }

  /** The whole days shown for a low-stock medication: `Math.floor` of the quotient. */
  function DaysShown(med: Medication): nat
    requires LowStock(med)
  {
    FloorDiv(med.quantity.value, med.dosage.value * ArrayLength(med.schedule).value)
  }

  /** Error severity, for less than three whole days. */
  predicate Critical(med: Medication)
    requires LowStock(med)
  {
    DaysShown(med) < 3
  }

  /** A listed medication shows fewer than 7 days, and it is critical exactly when its stock
      covers less than 3 days of doses. */
  lemma LowStockDays(med: Medication)
    requires LowStock(med)
    ensures DaysShown(med) < 7
    ensures Critical(med) <==> med.quantity.value < 3 * (med.dosage.value * |med.schedule.value.list|)
  {
    var m := med.dosage.value * ArrayLength(med.schedule).value;
    FloorDivBelow(med.quantity.value, m, 7);
    FloorDivBelow(med.quantity.value, m, 3);
  }

  /** The page's two lists, recomputed whenever the medication list changes. */
  class DashboardView {
    var upcomingDoses: seq<UpcomingRow>
    var lowStock: seq<Medication>

    constructor ()
      ensures upcomingDoses == [] && lowStock == []
    {
      upcomingDoses := [];
      lowStock := [];
    }

    /** The effect, at clock reading `now`. */
    method Refresh(meds: seq<Medication>, now: Instant)
      modifies this
      ensures upcomingDoses == SortBy(UpcomingRows(meds, now), UpcomingKey)
      ensures lowStock == Filter(meds, LowStock)
    {
      var due := Filter(meds, (m: Medication) => HasUpcomingDose(m, now));
      var rows: seq<UpcomingRow> := [];
      for i := 0 to |due|
        invariant |rows| == i
        invariant forall j :: 0 <= j < i ==> rows[j] == UpcomingOf(due[j], now)
      {
        var med := due[i];
        var nextDose, nextDoseTime := NextDose(med.schedule.value.list, now);
        rows := rows + [UpcomingRow(med, nextDose.value, nextDoseTime.value)];
      }
      assert rows == UpcomingRows(meds, now);
      upcomingDoses := SortBy(rows, UpcomingKey);
      lowStock := Filter(meds, LowStock);
    }
  }
}
