/** The reminder scanner (src/services/NotificationService.js): the module-level map of
    active due-now reminders, the acknowledgement notices that clear it, and the periodic
    scan that decides which medications are due now or coming up. Toasts are not shown
    here; each one the service would raise or dismiss is appended to a ghost log. */
module Notifications {
  import opened Common
  import opened Medications
  import opened MedicationContext

  /** The toast id stored for a reminder: `med-reminder-<medication id>-<Date.now()>`. */
  datatype Handle = Handle(medId: Id, stamp: int)

  datatype Notice =
    | Reminder(handle: Handle)
    | Dismissed(handle: Handle)
    | TakenNotice(medId: Id)
    | SkippedNotice(medId: Id)
    | Upcoming(medId: Id, time: Time)
    | DismissedAll(handles: set<Handle>)

  /** The service's state as a value: the active reminders and the notices raised so far. */
  datatype Reminders = Reminders(active: map<Id, Handle>, notices: seq<Notice>)

  /** Every stored handle belongs to the medication it is stored under. */
  predicate KeyedByMedication(active: map<Id, Handle>)
  {
    forall k :: k in active ==> active[k].medId == k
  }

  /** `showMedicationReminder`: nothing when the medication already has a reminder, else one
      new entry and one reminder toast. */
  function Remind(st: Reminders, id: Id, stamp: int): (r: Reminders)
    ensures r.active.Keys == st.active.Keys + {id}
    ensures forall k :: k in st.active ==> r.active[k] == st.active[k]
    ensures id in st.active ==> r == st
    ensures id !in st.active ==> r.active[id] == Handle(id, stamp) && r.notices == st.notices + [Reminder(Handle(id, stamp))]
  {
    if id in st.active then st
    else
      var h := Handle(id, stamp);
      Reminders(st.active[id := h], st.notices + [Reminder(h)])
  }

  /** `showMedicationTaken` / `showMedicationSkipped`: dismiss and forget the medication's
      reminder, if it has one, then raise the confirmation. */
  function Acknowledge(st: Reminders, id: Id, confirmation: Notice): (r: Reminders)
    ensures r.active.Keys == st.active.Keys - {id}
    ensures forall k :: k in r.active ==> r.active[k] == st.active[k]
    ensures id in st.active ==> r.notices == st.notices + [Dismissed(st.active[id]), confirmation]
    ensures id !in st.active ==> r.notices == st.notices + [confirmation]
  {
    if id in st.active then Reminders(st.active - {id}, st.notices + [Dismissed(st.active[id]), confirmation])
    else Reminders(st.active, st.notices + [confirmation])
  }

  /** A second reminder for the same medication changes nothing, whenever it comes. */
  lemma RemindIdempotent(st: Reminders, id: Id, stamp: int, later: int)
    ensures Remind(Remind(st, id, stamp), id, later) == Remind(st, id, stamp)
  {
  }

  /** Reminding and acknowledging keep every handle under its own medication's id, so the
      map holds at most one reminder per medication and it is that medication's. */
  lemma StepsKeepKeying(st: Reminders, id: Id, stamp: int, confirmation: Notice)
    requires KeyedByMedication(st.active)
    ensures KeyedByMedication(Remind(st, id, stamp).active)
    ensures KeyedByMedication(Acknowledge(st, id, confirmation).active)
  {
  }

  /** An acknowledgement after a reminder leaves the medication without a reminder and
      every other medication's reminder as it was. */
  lemma AcknowledgeAfterRemind(st: Reminders, id: Id, stamp: int, confirmation: Notice)
    ensures id !in Acknowledge(Remind(st, id, stamp), id, confirmation).active
    ensures forall k :: k != id ==> (k in Acknowledge(Remind(st, id, stamp), id, confirmation).active <==> k in st.active)
  {
  }

  // ---------------------------------------------------------------------------------
  // The scan

  /** `isDueNow` for a scheduled time, as the scan writes it. */
  predicate IsDueNow(t: Time, hour: Hour, minute: Minute)
  {
    (t.hour == hour && -30 <= t.minute - minute <= 30) ||
    (t.hour == hour - 1 && t.minute >= 30 && t.minute - 30 + 60 >= minute)
  }

  /** `isUpcoming` for a scheduled time, as the scan writes it. */
  predicate IsUpcoming(t: Time, hour: Hour, minute: Minute)
  {
    (t.hour == hour && t.minute - minute <= 15 && t.minute - minute > 0) ||
    (t.hour == hour + 1 && t.minute + 60 - minute <= 15)
  }

  /** The third conjunct of the previous-hour case never excludes anything: a time of the
      previous hour is due as soon as its minute is at least 30. */
  lemma DueNowExact(t: Time, hour: Hour, minute: Minute)
    ensures IsDueNow(t, hour, minute) <==>
      (t.hour == hour && -30 <= t.minute - minute <= 30) || (t.hour == hour - 1 && t.minute >= 30)
  {
  }

  /** Measured in minutes of the day, a due time lies between 89 minutes before now and
      30 minutes after it; both ends occur, so the rule is not a 30-minute band. */
  lemma DueNowOffsets(t: Time, hour: Hour, minute: Minute)
    requires IsDueNow(t, hour, minute)
    ensures -89 <= MinuteOfDay(t) - MinuteOfDay(Time(hour, minute)) <= 30
  {
  }

  lemma DueNowExtremes()
    ensures IsDueNow(Time(8, 30), 9, 59) && MinuteOfDay(Time(8, 30)) - MinuteOfDay(Time(9, 59)) == -89
    ensures IsDueNow(Time(9, 30), 9, 0) && MinuteOfDay(Time(9, 30)) - MinuteOfDay(Time(9, 0)) == 30
    // a time 15 minutes ahead but in the next hour is not due
    ensures !IsDueNow(Time(10, 5), 9, 50)
    // there is no wrap at midnight: 23:50 is not due at 00:10
    ensures !IsDueNow(Time(23, 50), 0, 10)
  {
  }

  /** A time is upcoming exactly when it is 1 to 15 minutes ahead of now on the same day's
      minute scale; in particular nothing after midnight is upcoming late at hour 23. */
  lemma UpcomingExact(t: Time, hour: Hour, minute: Minute)
    ensures IsUpcoming(t, hour, minute) <==> 1 <= MinuteOfDay(t) - MinuteOfDay(Time(hour, minute)) <= 15
  {
  }

  lemma UpcomingNoMidnightWrap()
    ensures !IsUpcoming(Time(0, 5), 23, 55)
  {
  }

  /** The two windows overlap: a time 1 to 15 minutes ahead in the current hour is both due
      now and upcoming, so both notices are raised for it. */
  lemma UpcomingWithinHourIsDue(t: Time, hour: Hour, minute: Minute)
    requires IsUpcoming(t, hour, minute) && t.hour == hour
    ensures IsDueNow(t, hour, minute)
  {
  }

  /** The times the scan looks at for a schedule on the day called `today`, or `None` when
      the medication is skipped. */
  function ScanTimes(s: Option<Schedule>, today: string): (r: Option<seq<Time>>)
    ensures s.None? ==> r.None?
    ensures s.Some? && s.value.Legacy? ==> r == Some(s.value.list)
    ensures s.Some? && s.value.Tagged? ==>
      (r.Some? <==>
         s.value.times.Some? && s.value.times.value != [] &&
         (s.value.kind == "daily" || (s.value.kind == "specific-days" && today in s.value.days)))
    ensures r.Some? ==> r.value == TimesOf(s)
  {
    match s
    case None => None
    case Some(Legacy(list)) => Some(list)
    case Some(Tagged(kind, days, times)) =>
      if times.None? || times.value == [] then None
      else if kind == "specific-days" then (if today in days then times else None)
      else if kind == "daily" then times
      else None
  }

  /** A legacy list and a `daily` object with the same non-empty times are scanned alike. */
  lemma LegacyScansAsDaily(ts: seq<Time>, days: seq<string>, today: string)
    requires ts != []
    ensures ScanTimes(Some(Legacy(ts)), today) == ScanTimes(Some(Tagged("daily", days, Some(ts))), today)
  {
  }

  /** A slot raises a reminder attempt when it is due now and the ledger has no match for it
      at `now`. */
  predicate SlotFires(med: Medication, t: Time, history: seq<Record>, now: Instant)
  {
    IsDueNow(t, HourOf(now), MinuteOf(now)) && MatchOccurrence(history, med.id, Some(t), now).None?
  }

  /** One time of one medication. */
  function ScanSlot(st: Reminders, med: Medication, t: Time, history: seq<Record>, now: Instant): Reminders
  {
    var st' := if SlotFires(med, t, history, now) then Remind(st, med.id, Absolute(now)) else st;
    if IsUpcoming(t, HourOf(now), MinuteOf(now)) then st'.(notices := st'.notices + [Upcoming(med.id, t)]) else st'
  }

  /** The times of one medication, in order. */
  function ScanSlots(st: Reminders, med: Medication, ts: seq<Time>, history: seq<Record>, now: Instant): Reminders
  {
    if ts == [] then st else ScanSlot(ScanSlots(st, med, ts[..|ts| - 1], history, now), med, ts[|ts| - 1], history, now)
  }

  function ScanMedication(st: Reminders, med: Medication, history: seq<Record>, now: Instant): Reminders
  {
    match ScanTimes(med.schedule, DayName(now.day))
    case None => st
    case Some(ts) => ScanSlots(st, med, ts, history, now)
  }

  /** `checkUpcomingMedications(medications, checkMedicationTaken)` at `now`. */
  function Scan(st: Reminders, meds: seq<Medication>, history: seq<Record>, now: Instant): Reminders
  {
    if meds == [] then st else ScanMedication(Scan(st, meds[..|meds| - 1], history, now), meds[|meds| - 1], history, now)
  }

  /** The medication has a slot today that fires. */
  predicate MedicationFires(med: Medication, history: seq<Record>, now: Instant)
  {
    var ts := ScanTimes(med.schedule, DayName(now.day));
    ts.Some? && AnyFires(med, ts.value, history, now)
  }

  /** One slot adds its medication's reminder when it fires, keeps every existing reminder and
      only appends notices. */
  lemma ScanSlotStep(st: Reminders, med: Medication, t: Time, history: seq<Record>, now: Instant)
    ensures var r := ScanSlot(st, med, t, history, now);
      r.active.Keys == st.active.Keys + (if SlotFires(med, t, history, now) then {med.id} else {}) &&
      (forall k :: k in st.active ==> r.active[k] == st.active[k]) &&
      |st.notices| <= |r.notices| && r.notices[..|st.notices|] == st.notices
  {
  }

  /** Some time of `ts` fires. */
  predicate AnyFires(med: Medication, ts: seq<Time>, history: seq<Record>, now: Instant)
  {
    exists i :: 0 <= i < |ts| && SlotFires(med, ts[i], history, now)
  }

  lemma AnyFiresSnoc(med: Medication, ts: seq<Time>, history: seq<Record>, now: Instant)
    requires ts != []
    ensures AnyFires(med, ts, history, now) <==>
      AnyFires(med, ts[..|ts| - 1], history, now) || SlotFires(med, ts[|ts| - 1], history, now)
  {
    var init := ts[..|ts| - 1];
    assert forall i :: 0 <= i < |init| ==> init[i] == ts[i];
    if AnyFires(med, ts, history, now) && !SlotFires(med, ts[|ts| - 1], history, now) {
      var i :| 0 <= i < |ts| && SlotFires(med, ts[i], history, now);
      assert i < |init| && SlotFires(med, init[i], history, now);
    }
  }

  lemma {:induction false} ScanSlotsEffect(st: Reminders, med: Medication, ts: seq<Time>, history: seq<Record>, now: Instant)
    ensures var r := ScanSlots(st, med, ts, history, now);
      r.active.Keys == st.active.Keys + (if AnyFires(med, ts, history, now) then {med.id} else {}) &&
      (forall k :: k in st.active ==> r.active[k] == st.active[k]) &&
      |st.notices| <= |r.notices| && r.notices[..|st.notices|] == st.notices
  {
    if ts != [] {
      var init := ts[..|ts| - 1];
      var mid := ScanSlots(st, med, init, history, now);
      ScanSlotsEffect(st, med, init, history, now);
      ScanSlotStep(mid, med, ts[|ts| - 1], history, now);
      AnyFiresSnoc(med, ts, history, now);
      var r := ScanSlots(st, med, ts, history, now);
      assert r.notices[..|st.notices|] == mid.notices[..|st.notices|];
    }
  }

  /** The ids of the medications in `meds` that satisfy `p`, collected in list order. */
  function IdsWhere(meds: seq<Medication>, p: Medication -> bool): set<Id>
  {
    if meds == [] then {}
    else IdsWhere(meds[..|meds| - 1], p) + (if p(meds[|meds| - 1]) then {meds[|meds| - 1].id} else {})
  }

  lemma {:induction false} IdsWhereMembers(meds: seq<Medication>, p: Medication -> bool, k: Id)
    ensures k in IdsWhere(meds, p) <==> exists i :: 0 <= i < |meds| && p(meds[i]) && meds[i].id == k
  {
    if meds != [] {
      var init := meds[..|meds| - 1];
      IdsWhereMembers(init, p, k);
      if exists i :: 0 <= i < |meds| && p(meds[i]) && meds[i].id == k {
        var i :| 0 <= i < |meds| && p(meds[i]) && meds[i].id == k;
        if i < |init| { assert init[i] == meds[i]; }
      }
      if exists i :: 0 <= i < |init| && p(init[i]) && init[i].id == k {
        var i :| 0 <= i < |init| && p(init[i]) && init[i].id == k;
        assert meds[i] == init[i];
      }
    }
  }

  /** The ids of the medications in `meds` that have a firing slot. */
  function FiringIds(meds: seq<Medication>, history: seq<Record>, now: Instant): set<Id>
  {
    IdsWhere(meds, (m: Medication) => MedicationFires(m, history, now))
  }

  lemma FiringIdsMembers(meds: seq<Medication>, history: seq<Record>, now: Instant, k: Id)
    ensures k in FiringIds(meds, history, now) <==>
      exists i :: 0 <= i < |meds| && MedicationFires(meds[i], history, now) && meds[i].id == k
  {
    IdsWhereMembers(meds, (m: Medication) => MedicationFires(m, history, now), k);
  }

  /** What a whole scan does to the reminders: it adds exactly the medications with a firing
      slot (those that had no reminder get one), keeps every existing reminder as it was,
      and only appends notices. */
  lemma {:induction false} ScanEffect(st: Reminders, meds: seq<Medication>, history: seq<Record>, now: Instant)
    ensures var r := Scan(st, meds, history, now);
      r.active.Keys == st.active.Keys + FiringIds(meds, history, now) &&
      (forall k :: k in st.active ==> r.active[k] == st.active[k]) &&
      |st.notices| <= |r.notices| && r.notices[..|st.notices|] == st.notices
  {
    if meds != [] {
      var init := meds[..|meds| - 1];
      var med := meds[|meds| - 1];
      ScanEffect(st, init, history, now);
      var mid := Scan(st, init, history, now);
      var ts := ScanTimes(med.schedule, DayName(now.day));
      if ts.Some? {
        ScanSlotsEffect(mid, med, ts.value, history, now);
      }
    }
  }

  /** A medication gets a reminder from a scan exactly when it already had one or some slot
      of it is due now and unmatched in the ledger. */
  lemma ScanReminds(st: Reminders, meds: seq<Medication>, history: seq<Record>, now: Instant, k: Id)
    ensures k in Scan(st, meds, history, now).active <==>
      k in st.active || exists i :: 0 <= i < |meds| && MedicationFires(meds[i], history, now) && meds[i].id == k
  {
    ScanEffect(st, meds, history, now);
    FiringIdsMembers(meds, history, now, k);
  }

  /** A slot whose dose is already in the ledger — a record of that medication, that day,
      within 30 minutes of the slot — never raises a reminder, at any time of that day. */
  lemma {:induction false} MatchedSlotDoesNotFire(med: Medication, t: Time, history: seq<Record>, now: Instant, k: nat)
    requires med.id != "" && k < |history| && Matches(history[k], med.id, t, now.day)
    ensures !SlotFires(med, t, history, now)
  {
    MatchOccurrenceIsFirstMatch(history, med.id, t, now);
  }

  /** The service. Only one exists (`activeReminders` is module state). */
  class ReminderService {
    var active: map<Id, Handle>
    ghost var log: seq<Notice>

    ghost function State(): Reminders
      reads this
    {
      Reminders(active, log)
    }

    constructor ()
      ensures active == map[] && log == []
    {
      active := map[];
      log := [];
    }

    /** `showMedicationReminder(medication)`; `stamp` is the clock reading for the toast id. */
    method ShowMedicationReminder(med: Medication, stamp: int)
      modifies this
      ensures State() == Remind(old(State()), med.id, stamp)
    {
      if med.id in active {
        return;
      }
      var h := Handle(med.id, stamp);
      active := active[med.id := h];
      log := log + [Reminder(h)];
    }

    method ShowMedicationTaken(med: Medication)
      modifies this
      ensures State() == Acknowledge(old(State()), med.id, TakenNotice(med.id))
      ensures med.id !in active
    {
      if med.id in active {
        log := log + [Dismissed(active[med.id])];
        active := active - {med.id};
      }
      log := log + [TakenNotice(med.id)];
    }

    method ShowMedicationSkipped(med: Medication)
      modifies this
      ensures State() == Acknowledge(old(State()), med.id, SkippedNotice(med.id))
      ensures med.id !in active
    {
      if med.id in active {
        log := log + [Dismissed(active[med.id])];
        active := active - {med.id};
      }
      log := log + [SkippedNotice(med.id)];
    }

    /** `clearAllReminders`: every stored toast is dismissed and the map emptied. */
    method ClearAllReminders()
      modifies this
      ensures active == map[]
      ensures log == old(log) + [DismissedAll(old(active).Values)]
    {
      log := log + [DismissedAll(active.Values)];
      active := map[];
    }

    /** `checkUpcomingMedications(medications, checkMedicationTaken)` with the clock reading
        `now`; the ledger is only read. */
    method CheckUpcomingMedications(meds: seq<Medication>, store: Store, now: Instant)
      modifies this
      ensures State() == Scan(old(State()), meds, store.history, now)
    {
      if |meds| == 0 {
        return;
      }
      var hour, minute := HourOf(now), MinuteOf(now);
      var todayName := DayNames[WeekdayOf(now.day)];
      ghost var start := State();
      var i := 0;
      while i < |meds|
        invariant 0 <= i <= |meds|
        invariant State() == Scan(start, meds[..i], store.history, now)
      {
        var med := meds[i];
        assert meds[..i + 1][..i] == meds[..i];
        var times := ScanTimes(med.schedule, todayName);
        if times.Some? {
          var ts := times.value;
          ghost var before := State();
          var j := 0;
          while j < |ts|
            invariant 0 <= j <= |ts|
            invariant State() == ScanSlots(before, med, ts[..j], store.history, now)
          {
            var time := ts[j];
            assert ts[..j + 1][..j] == ts[..j];
            if IsDueNow(time, hour, minute) {
              var status := store.CheckMedicationTaken(med.id, Some(time), now);
              if status.None? {
                ShowMedicationReminder(med, Absolute(now));
              }
            }
            if IsUpcoming(time, hour, minute) {
              log := log + [Upcoming(med.id, time)];
            }
            j := j + 1;
          }
          assert ts[..|ts|] == ts;
        }
        i := i + 1;
      }
      assert meds[..|meds|] == meds;
    }
  }
}
