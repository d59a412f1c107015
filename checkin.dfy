/** The check-in dialog (src/components/MedicationCheckIn.js): it shows whether a scheduled
    dose was already taken or skipped, and its two buttons acknowledge the dose by updating
    the matching ledger record or appending a new one, then clearing the reminder. */
module CheckIn {
  import opened Common
  import opened Medications
  import opened MedicationContext
  import opened Notifications

  datatype CheckStatus = Taken | Skipped

  /** The dialog's status for a match result: 'taken', 'skipped', or none. */
  function StatusOf(m: Option<Status>): (r: Option<CheckStatus>)
    ensures r.None? <==> m.None?
    ensures r == Some(Taken) <==> m.Some? && m.value.taken
    ensures r == Some(Skipped) <==> m.Some? && !m.value.taken
  {
    match m
    case None => None
    case Some(s) => Some(if s.taken then Taken else Skipped)
  }

  /** The ledger command a button issues: an update of the matched record when the match
      carries a record id, else a new record stamped `now`. The match is the one computed
      for the dialog's latest rendering, at clock reading `rendered`. */
  function CheckInAction(history: seq<Record>, medId: Id, scheduled: Option<Time>, rendered: Instant,
                         now: Instant, freshId: Id, taken: bool): Action
  {
    var m := MatchOccurrence(history, medId, scheduled, rendered);
    if m.Some? && m.value.recordId != "" then UpdateConsumption(m.value.recordId, taken)
    else RecordConsumption(medId, now, taken, freshId)
  }

  /** With a match, the check-in rewrites the matched record's flag and appends nothing. */
  lemma CheckInUpdatesMatch(s: State, medId: Id, t: Time, rendered: Instant, now: Instant, freshId: Id, taken: bool)
    requires medId != ""
    requires MatchOccurrence(s.history, medId, Some(t), rendered).Some?
    requires MatchOccurrence(s.history, medId, Some(t), rendered).value.recordId != ""
    ensures var r := Reduce(s, CheckInAction(s.history, medId, Some(t), rendered, now, freshId, taken));
      |r.history| == |s.history| && r.medications == s.medications &&
      MatchOccurrence(r.history, medId, Some(t), rendered) ==
        Some(Status(taken, MatchOccurrence(s.history, medId, Some(t), rendered).value.recordId))
  {
    var rid := MatchOccurrence(s.history, medId, Some(t), rendered).value.recordId;
    assert CheckInAction(s.history, medId, Some(t), rendered, now, freshId, taken) == UpdateConsumption(rid, taken);
    assert Reduce(s, UpdateConsumption(rid, taken)) == s.(history := SetTaken(s.history, rid, taken));
    MatchAfterSetTaken(s.history, medId, t, rendered, taken);
  }

  /** Without a match, the check-in appends exactly one record of the medication, stamped
      `now`, with the button's flag. */
  lemma CheckInAppendsWithoutMatch(s: State, medId: Id, scheduled: Option<Time>, rendered: Instant, now: Instant, freshId: Id, taken: bool)
    requires MatchOccurrence(s.history, medId, scheduled, rendered).None?
    ensures Reduce(s, CheckInAction(s.history, medId, scheduled, rendered, now, freshId, taken)) ==
      s.(history := s.history + [Record(freshId, medId, now, taken)])
  {
  }

  /** A check-in close enough to the slot (same day, within 30 minutes) makes the slot read
      as acknowledged with the button's flag, whether it updated or appended. */
  lemma CheckInAcknowledgesSlot(s: State, medId: Id, t: Time, now: Instant, freshId: Id, taken: bool)
    requires medId != ""
    requires forall i :: 0 <= i < |s.history| ==> s.history[i].id != ""
    requires -MatchToleranceMillis <= now.millis - MillisAt(t) <= MatchToleranceMillis
    ensures var r := Reduce(s, CheckInAction(s.history, medId, Some(t), now, now, freshId, taken));
      MatchOccurrence(r.history, medId, Some(t), now).Some? &&
      MatchOccurrence(r.history, medId, Some(t), now).value.taken == taken
  {
    var m := MatchOccurrence(s.history, medId, Some(t), now);
    if m.Some? {
      MatchOccurrenceIsFirstMatch(s.history, medId, t, now);
      var i :| 0 <= i < |s.history| && Matches(s.history[i], medId, t, now.day) &&
        m.value == Status(s.history[i].taken, s.history[i].id) &&
        forall j :: 0 <= j < i ==> !Matches(s.history[j], medId, t, now.day);
      assert m.value.recordId != "";
      CheckInUpdatesMatch(s, medId, t, now, now, freshId, taken);
    } else {
      var rec := Record(freshId, medId, now, taken);
      assert Matches(rec, medId, t, now.day);
      assert CheckInAction(s.history, medId, Some(t), now, now, freshId, taken) == RecordConsumption(medId, now, taken, freshId);
      assert Reduce(s, RecordConsumption(medId, now, taken, freshId)).history == s.history + [rec];
      MatchAfterAppend(s.history, medId, t, now, rec);
    }
  }

  /** A slot of the previous hour stays due until the end of the current hour, but the
      ledger matches only 30 minutes around it: a dose of 08:30 checked in at 09:01 leaves
      the slot due and unmatched, so the next scan reminds again. */
  lemma LateCheckInStillFires(med: Medication, day: int, freshId: Id)
    requires med.id != ""
    ensures var at := Instant(day, MillisAt(Time(9, 1)));
      var s := State([], [], false, None);
      var r := Reduce(s, CheckInAction([], med.id, Some(Time(8, 30)), at, at, freshId, true));
      r.history == [Record(freshId, med.id, at, true)] && SlotFires(med, Time(8, 30), r.history, at)
  {
    var at := Instant(day, MillisAt(Time(9, 1)));
    assert HourOf(at) == 9 && MinuteOf(at) == 1;
  }

  /** The sequence of a missed dose: at 08:05 the scan finds the unacknowledged 08:00 dose
      and reminds; a check-in at 08:05 clears the reminder and records the dose, and a scan
      later that day that is given the updated ledger does not remind for it. */
  lemma {:induction false} RemindThenAcknowledge(st: Reminders, med: Medication, freshId: Id, later: Instant)
    requires med.id != "" && med.id !in st.active
    requires med.schedule == Some(Legacy([Time(8, 0)]))
    ensures var at := Instant(later.day, MillisAt(Time(8, 5)));
      var r1 := Scan(st, [med], [], at);
      var h := Reduce(State([med], [], false, None), CheckInAction([], med.id, Some(Time(8, 0)), at, at, freshId, true)).history;
      var r2 := Acknowledge(r1, med.id, TakenNotice(med.id));
      med.id in r1.active && med.id !in r2.active && h == [Record(freshId, med.id, at, true)] &&
      med.id !in Scan(r2, [med], h, later).active
  {
    var at := Instant(later.day, MillisAt(Time(8, 5)));
    assert HourOf(at) == 8 && MinuteOf(at) == 5;
    assert [med][..0] == [];
    assert SlotFires(med, Time(8, 0), [], at);
    var ts := ScanTimes(med.schedule, DayName(at.day));
    assert ts == Some([Time(8, 0)]) && SlotFires(med, ts.value[0], [], at);
    assert MedicationFires(med, [], at);
    ScanReminds(st, [med], [], at, med.id);
    var r1 := Scan(st, [med], [], at);
    var h := [Record(freshId, med.id, at, true)];
    var r2 := Acknowledge(r1, med.id, TakenNotice(med.id));
    MatchedSlotDoesNotFire(med, Time(8, 0), h, later, 0);
    ScanReminds(r2, [med], h, later, med.id);
  }

  /** The dialog for one scheduled dose of one medication. */
  class CheckInDialog {
    const medication: Medication
    const scheduled: Option<Time>
    var status: Option<CheckStatus>

    /** The initial status comes from the ledger's match for the slot at `now`. */
    constructor (medication: Medication, scheduled: Option<Time>, store: Store, now: Instant)
      ensures this.medication == medication && this.scheduled == scheduled
      ensures status == StatusOf(MatchOccurrence(store.history, medication.id, scheduled, now))
    {
      this.medication := medication;
      this.scheduled := scheduled;
      var m := store.CheckMedicationTaken(medication.id, scheduled, now);
      status := StatusOf(m);
    }

    /** `handleTaken`: acknowledge in the ledger, mark the dialog taken and clear the reminder. */
    method HandleTaken(store: Store, reminders: ReminderService, rendered: Instant, now: Instant, freshId: Id)
      modifies this, store, reminders
      ensures store.Snapshot() == Reduce(old(store.Snapshot()),
        CheckInAction(old(store.history), medication.id, scheduled, rendered, now, freshId, true))
      ensures reminders.State() == Acknowledge(old(reminders.State()), medication.id, TakenNotice(medication.id))
      ensures medication.id !in reminders.active
      ensures status == Some(Taken)
    {
      AcknowledgeInLedger(store, rendered, now, freshId, true);
      status := Some(Taken);
      reminders.ShowMedicationTaken(medication);
    }

    /** `handleSkipped`: the same with the dose marked skipped. */
    method HandleSkipped(store: Store, reminders: ReminderService, rendered: Instant, now: Instant, freshId: Id)
      modifies this, store, reminders
      ensures store.Snapshot() == Reduce(old(store.Snapshot()),
        CheckInAction(old(store.history), medication.id, scheduled, rendered, now, freshId, false))
      ensures reminders.State() == Acknowledge(old(reminders.State()), medication.id, SkippedNotice(medication.id))
      ensures medication.id !in reminders.active
      ensures status == Some(Skipped)
    {
      AcknowledgeInLedger(store, rendered, now, freshId, false);
      status := Some(Skipped);
      reminders.ShowMedicationSkipped(medication);
    }

    /** The ledger half of both buttons. */
    method AcknowledgeInLedger(store: Store, rendered: Instant, now: Instant, freshId: Id, taken: bool)
      modifies store
      ensures store.Snapshot() == Reduce(old(store.Snapshot()),
        CheckInAction(old(store.history), medication.id, scheduled, rendered, now, freshId, taken))
    {
      var m := store.CheckMedicationTaken(medication.id, scheduled, rendered);
      if m.Some? && m.value.recordId != "" {
        store.UpdateConsumption(m.value.recordId, taken);
      } else {
        store.RecordConsumption(medication.id, now, taken, freshId);
      }
    }
  }
}
