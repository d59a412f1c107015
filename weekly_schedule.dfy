/** The schedule page (src/pages/Schedule.js): a weekly table with one list of doses per
    weekday, and today's doses ordered by time, each marked past or not. */
module WeeklySchedule {
  import opened Common
  import opened Sorting
  import opened Medications

  /** A row of the weekly table: the medication (spread) with one of its times. */
  datatype Slot = Slot(medication: Medication, time: Time)

  /** A row of today's list: also the instant of the time today and whether it has passed. */
  datatype TimedSlot = TimedSlot(medication: Medication, time: Time, at: Instant, isPast: bool)

  function SlotOf(med: Medication, t: Time): Slot { Slot(med, t) }

  /** Today's row for a time: `setHours(h, m, 0, 0)` on today's date, past when before `now`. */
  function TimedSlotOf(now: Instant): (Medication, Time) -> TimedSlot
  {
    (med: Medication, t: Time) => TimedSlot(med, t, Instant(now.day, MillisAt(t)), MillisAt(t) < now.millis)
  }

  /** The weekly lists are ordered by the "HH:MM" text, which orders times by minute of day
      (`TimeText.FormatOrder`); today's list by the instant. */
  function SlotKey(s: Slot): int { MinuteOfDay(s.time) }
  function TimedKey(s: TimedSlot): int { Absolute(s.at) }

  /** The times the page reads from a schedule: the legacy array, or the object's `times`;
      `None` for a medication it skips. */
  function PageTimes(s: Option<Schedule>): (r: Option<seq<Time>>)
    ensures r.Some? ==> r.value == TimesOf(s)
    ensures r.None? ==> TimesOf(s) == []
  {
    match s
    case None => None
    case Some(Legacy(list)) => Some(list)
    case Some(Tagged(_, _, times)) => times
  }

  /** The page's effect. Every time of every medication is pushed onto all seven day lists
      and onto today's list; then each day list is sorted by time and today's list by instant. */
  method BuildSchedule(meds: seq<Medication>, now: Instant) returns (byDay: seq<seq<Slot>>, byTime: seq<TimedSlot>)
    ensures |byDay| == 7
    ensures forall d :: 0 <= d < 7 ==> byDay[d] == SortBy(PerTime(meds, SlotOf), SlotKey)
    ensures byTime == SortBy(PerTime(meds, TimedSlotOf(now)), TimedKey)
  {
    var days := new seq<Slot>[7](_ => []);
    var timed: seq<TimedSlot> := [];
    var i := 0;
    while i < |meds|
      invariant 0 <= i <= |meds|
      invariant forall d :: 0 <= d < 7 ==> days[d] == PerTime(meds[..i], SlotOf)
      invariant timed == PerTime(meds[..i], TimedSlotOf(now))
    {
      PerTimeSnoc(meds, i, SlotOf);
      PerTimeSnoc(meds, i, TimedSlotOf(now));
      timed := PushMedication(days, timed, meds[i], now);
      i := i + 1;
    }
    assert meds[..|meds|] == meds;
    SortEachDay(days);
    byDay := days[..];
    byTime := SortBy(timed, TimedKey);
  }

  /** The body of the outer `forEach`: a skipped medication adds nothing; otherwise each of
      its times is pushed onto every day list and onto today's list. */
  method PushMedication(days: array<seq<Slot>>, timed: seq<TimedSlot>, med: Medication, now: Instant)
    returns (timed': seq<TimedSlot>)
    requires days.Length == 7
    modifies days
    ensures forall d :: 0 <= d < 7 ==> days[d] == old(days[d]) + RowsOf(med, SlotOf)
    ensures timed' == timed + RowsOf(med, TimedSlotOf(now))
  {
    timed' := timed;
    var scheduleTimes := PageTimes(med.schedule);
    if scheduleTimes.None? {
      return;
    }
    var ts := scheduleTimes.value;
    var j := 0;
    while j < |ts|
      invariant 0 <= j <= |ts|
      invariant forall d :: 0 <= d < 7 ==> days[d] == old(days[d]) + RowsOf(med, SlotOf)[..j]
      invariant timed' == timed + RowsOf(med, TimedSlotOf(now))[..j]
    {
      var t := ts[j];
      PushEverywhere(days, Slot(med, t));
      timed' := timed' + [TimedSlot(med, t, Instant(now.day, MillisAt(t)), MillisAt(t) < now.millis)];
      assert RowsOf(med, SlotOf)[..j + 1] == RowsOf(med, SlotOf)[..j] + [Slot(med, t)];
      assert RowsOf(med, TimedSlotOf(now))[..j + 1] == RowsOf(med, TimedSlotOf(now))[..j] + [TimedSlotOf(now)(med, t)];
      j := j + 1;
    }
    assert RowsOf(med, SlotOf)[..|ts|] == RowsOf(med, SlotOf);
    assert RowsOf(med, TimedSlotOf(now))[..|ts|] == RowsOf(med, TimedSlotOf(now));
  }

  /** `byDay.forEach(day => day.sort(...))`. */
  method SortEachDay(days: array<seq<Slot>>)
    modifies days
    ensures forall d :: 0 <= d < days.Length ==> days[d] == SortBy(old(days[d]), SlotKey)
  {
    ghost var before := days[..];
    for d := 0 to days.Length
      invariant forall e :: 0 <= e < days.Length ==> days[e] == if e < d then SortBy(before[e], SlotKey) else before[e]
    {
      days[d] := SortBy(days[d], SlotKey);
    }
  }

  /** The `for (let i = 0; i < 7; i++)` loop: the row is pushed onto each day list. */
  method PushEverywhere(days: array<seq<Slot>>, s: Slot)
    requires days.Length == 7
    modifies days
    ensures forall d :: 0 <= d < 7 ==> days[d] == old(days[d]) + [s]
  {
    for d := 0 to 7
      invariant forall e :: 0 <= e < d ==> days[e] == old(days[e]) + [s]
      invariant forall e :: d <= e < 7 ==> days[e] == old(days[e])
    {
      days[d] := days[d] + [s];
    }
  }

  /** What every day list of the table holds: one row per time of every medication, whatever
      the weekdays of its schedule, in chronological order. */
  lemma DayListContents(meds: seq<Medication>, s: Slot)
    ensures |SortBy(PerTime(meds, SlotOf), SlotKey)| == TimeCount(meds)
    ensures SortedBy(SortBy(PerTime(meds, SlotOf), SlotKey), SlotKey)
    ensures s in SortBy(PerTime(meds, SlotOf), SlotKey) <==>
      exists i, k :: 0 <= i < |meds| && 0 <= k < |TimesOf(meds[i].schedule)| && s == Slot(meds[i], TimesOf(meds[i].schedule)[k])
  {
    var rows := PerTime(meds, SlotOf);
    SortByPermutes(rows, SlotKey);
    assert s in rows <==> s in multiset(rows);
    assert s in SortBy(rows, SlotKey) <==> s in multiset(SortBy(rows, SlotKey));
    PerTimeMembers(meds, SlotOf, s);
  }

  /** What today's list holds: one row per time of every medication, placed on today's date,
      ordered by instant, and marked past exactly when it lies before `now`. */
  lemma TodayListContents(meds: seq<Medication>, now: Instant, s: TimedSlot)
    ensures SortedBy(SortBy(PerTime(meds, TimedSlotOf(now)), TimedKey), TimedKey)
    ensures s in SortBy(PerTime(meds, TimedSlotOf(now)), TimedKey) <==>
      exists i, k :: 0 <= i < |meds| && 0 <= k < |TimesOf(meds[i].schedule)| &&
        s == TimedSlotOf(now)(meds[i], TimesOf(meds[i].schedule)[k])
    ensures s in SortBy(PerTime(meds, TimedSlotOf(now)), TimedKey) ==>
      s.at.day == now.day && s.at.millis == MillisAt(s.time) && (s.isPast <==> Absolute(s.at) < Absolute(now))
  {
    var rows := PerTime(meds, TimedSlotOf(now));
    SortByPermutes(rows, TimedKey);
    assert s in rows <==> s in multiset(rows);
    assert s in SortBy(rows, TimedKey) <==> s in multiset(SortBy(rows, TimedKey));
    PerTimeMembers(meds, TimedSlotOf(now), s);
  }

  /** A medication scheduled for Mondays only still appears on every day of the table. */
  lemma SpecificDaysIgnored(med: Medication, t: Time, d: int)
    requires med.schedule == Some(Tagged("specific-days", ["monday"], Some([t])))
    requires 0 <= d < 7
    ensures Slot(med, t) in SortBy(PerTime([med], SlotOf), SlotKey)
  {
    DayListContents([med], Slot(med, t));
    assert TimesOf([med][0].schedule)[0] == t;
  }
}
