/** The patient's home page (src/pages/ClientDashboard.js): today's doses, one row per
    scheduled time of each medication taken today, in chronological order, and the
    medications that are running out of units. */
module ClientDashboard {
  import opened Common
  import opened Sorting
  import opened Medications
  import opened Notifications

  /** Whether the page lists the medication today: it has a schedule, and the schedule is a
      legacy array, a `specific-days` object naming today, or a `daily` object. */
  predicate ListedToday(med: Medication, today: string)
  {
    med.schedule.Some? &&
    match med.schedule.value
    case Legacy(_) => true
    case Tagged(kind, days, _) => if kind == "specific-days" then today in days else kind == "daily"
  }

  /** A row of today's list. */
  datatype DoseRow = DoseRow(id: Id, name: string, time: Time, dosage: Option<nat>, unit: string)

  function DoseRowOf(med: Medication, t: Time): DoseRow
  {
    DoseRow(med.id, med.name, t, med.dosage, med.unit)
  }

  /** The comparator `(h, m) => h * 60 + m` on the "HH:MM" text of the row's time. */
  function DoseKey(r: DoseRow): int { MinuteOfDay(r.time) }

  /** Today's list: the day's medications flattened per time and sorted by minute of day. */
  function TodayRows(meds: seq<Medication>, today: string): seq<DoseRow>
  {
    SortBy(PerTime(Filter(meds, (m: Medication) => ListedToday(m, today)), DoseRowOf), DoseKey)
  }

  /** A row of the low-stock list. */
  datatype StockRow = StockRow(id: Id, name: string, remaining: nat)

  /** `med.quantity && med.quantity < 5`: zero and missing quantities are not flagged. */
  predicate FewUnits(med: Medication)
  {
    Truthy(med.quantity) && med.quantity.value < 5
  }

  function LowStockRows(meds: seq<Medication>): (r: seq<StockRow>)
    ensures |r| <= |meds|
  {
    var low := Filter(meds, FewUnits);
    seq(|low|, i requires 0 <= i < |low| => StockRow(low[i].id, low[i].name, low[i].quantity.value))
  }

  /** Today's list: ordered by time, and a row is listed exactly when it is the row of a time
      of a medication listed today. */
  lemma TodayRowsContents(meds: seq<Medication>, today: string, row: DoseRow)
    ensures SortedBy(TodayRows(meds, today), DoseKey)
    ensures row in TodayRows(meds, today) <==>
      exists i, k :: 0 <= i < |meds| && ListedToday(meds[i], today) && 0 <= k < |TimesOf(meds[i].schedule)| &&
        row == DoseRowOf(meds[i], TimesOf(meds[i].schedule)[k])
  {
    var listed := (m: Medication) => ListedToday(m, today);
    var rows := PerTime(Filter(meds, listed), DoseRowOf);
    SortByPermutes(rows, DoseKey);
    assert row in rows <==> row in multiset(rows);
    assert row in TodayRows(meds, today) <==> row in multiset(TodayRows(meds, today));
    PerTimeFilterMembers(meds, listed, DoseRowOf, row);
  }

  /** The page shows today exactly the times the reminder scanner checks today: a listed
      medication's times are the scanned ones, and an unlisted one has none scanned. */
  lemma ListedTimesAreScannedTimes(med: Medication, today: string)
    ensures (if ListedToday(med, today) then TimesOf(med.schedule) else []) ==
      (if ScanTimes(med.schedule, today).Some? then ScanTimes(med.schedule, today).value else [])
  {
  }

  /** The low-stock list: the medications with 1 to 4 units left, in list order. */
  lemma LowStockRowsContents(meds: seq<Medication>, row: StockRow)
    ensures row in LowStockRows(meds) ==>
      1 <= row.remaining < 5 && exists i :: 0 <= i < |meds| && meds[i].id == row.id && meds[i].quantity == Some(row.remaining)
    ensures forall i :: 0 <= i < |meds| && FewUnits(meds[i]) ==>
      StockRow(meds[i].id, meds[i].name, meds[i].quantity.value) in LowStockRows(meds)
  {
    var low := Filter(meds, FewUnits);
    if row in LowStockRows(meds) {
      var i :| 0 <= i < |low| && LowStockRows(meds)[i] == row;
      assert low[i] in meds;
    }
    forall i | 0 <= i < |meds| && FewUnits(meds[i])
      ensures StockRow(meds[i].id, meds[i].name, meds[i].quantity.value) in LowStockRows(meds)
    {
      var j :| 0 <= j < |low| && low[j] == meds[i];
      assert LowStockRows(meds)[j] == StockRow(meds[i].id, meds[i].name, meds[i].quantity.value);
    }
  }

  /** The two lists the page holds, recomputed whenever the medication list changes. */
  class ClientDashboardView {
    var upcoming: seq<DoseRow>
    var lowStock: seq<StockRow>

    constructor ()
      ensures upcoming == [] && lowStock == []
    {
      upcoming := [];
      lowStock := [];
    }

    /** The effect: nothing is recomputed while the medication list is empty, so the lists
        then keep what they held. `today` is the clock reading's day. */
    method Refresh(meds: seq<Medication>, today: Instant)
      modifies this
      ensures |meds| == 0 ==> upcoming == old(upcoming) && lowStock == old(lowStock)
      ensures |meds| > 0 ==> upcoming == TodayRows(meds, DayName(today.day)) && lowStock == LowStockRows(meds)
    {
      if |meds| > 0 {
        var todayName := DayName(today.day);
        var todayMeds := Filter(meds, (m: Medication) => ListedToday(m, todayName));
        var rows := PerTime(todayMeds, DoseRowOf);
        upcoming := SortBy(rows, DoseKey);
        lowStock := LowStockRows(meds);
      }
    }
  }
}
