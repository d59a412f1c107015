/** The medication store and consumption ledger (src/context/MedicationContext.js):
    the reducer that interprets the store's commands, the provider that holds the state and
    offers the actions, and the matcher that decides whether a scheduled dose was
    checked in. */
module MedicationContext {
  import opened Common
  import opened Medications

  datatype State = State(medications: seq<Medication>, history: seq<Record>, loading: bool, error: Option<string>)

  /** The reducer's commands. `RecordConsumption` carries the id that the reducer draws
      from the uuid supply for the new record; `Unrecognised` is any other action type. */
  datatype Action =
    | GetMedications(payload: seq<Medication>)
    | AddMedication(medication: Medication)
    | DeleteMedication(id: Id)
    | UpdateMedication(medication: Medication)
    | SetLoading
    | SetError(message: string)
    | RecordConsumption(medicationId: Id, timestamp: Instant, taken: bool, recordId: Id)
    | UpdateConsumption(recordId: Id, taken: bool)
    | Unrecognised

  /** `medications.map(med => med.id === p.id ? p : med)`. */
  function ReplaceById(meds: seq<Medication>, p: Medication): seq<Medication>
  {
    seq(|meds|, i requires 0 <= i < |meds| => if meds[i].id == p.id then p else meds[i])
  }

  /** `history.map(record => record.id === rid ? {...record, taken} : record)`. */
  function SetTaken(history: seq<Record>, rid: Id, taken: bool): seq<Record>
  {
    seq(|history|, i requires 0 <= i < |history| => if history[i].id == rid then history[i].(taken := taken) else history[i])
  }

  function Reduce(s: State, a: Action): State
  {
    match a
    case GetMedications(meds) => s.(medications := meds, loading := false)
    case AddMedication(m) => s.(medications := s.medications + [m])
    case DeleteMedication(id) =>
      s.(medications := Filter(s.medications, (m: Medication) => m.id != id),
         history := Filter(s.history, (r: Record) => r.medicationId != id),
         loading := false)
    case UpdateMedication(p) => s.(medications := ReplaceById(s.medications, p))
    case SetLoading => s.(loading := true)
    case SetError(message) => s.(error := Some(message), loading := false)
    case RecordConsumption(mid, ts, taken, rid) => s.(history := s.history + [Record(rid, mid, ts, taken)])
    case UpdateConsumption(rid, taken) => s.(history := SetTaken(s.history, rid, taken))
    case Unrecognised => s
  }

  /** ADD_MEDICATION puts the payload after every medication already there and
      touches nothing else. */
  lemma AddAppendsLast(s: State, m: Medication)
    ensures var r := Reduce(s, AddMedication(m));
      |r.medications| == |s.medications| + 1 && r.medications[|s.medications|] == m &&
      r.medications[..|s.medications|] == s.medications && r.history == s.history &&
      r.loading == s.loading && r.error == s.error
  {
  }

  /** DELETE_MEDICATION removes every medication with the id and, cascading, every record
      of it; everything else stays, in its relative order. */
  lemma DeleteCascades(s: State, id: Id)
    ensures var r := Reduce(s, DeleteMedication(id));
      (forall i :: 0 <= i < |r.medications| ==> r.medications[i].id != id) &&
      (forall i :: 0 <= i < |r.history| ==> r.history[i].medicationId != id) &&
      (forall i :: 0 <= i < |s.medications| && s.medications[i].id != id ==> s.medications[i] in r.medications) &&
      (forall i :: 0 <= i < |s.history| && s.history[i].medicationId != id ==> s.history[i] in r.history) &&
      Subsequence(r.medications, s.medications) && Subsequence(r.history, s.history) &&
      !r.loading && r.error == s.error
  {
    FilterIsSubsequence(s.medications, (m: Medication) => m.id != id);
    FilterIsSubsequence(s.history, (r: Record) => r.medicationId != id);
  }

  /** ADD_MEDICATION of a medication whose id is new, followed by DELETE_MEDICATION of
      that id, gives back the medications and the history (the ledger holds no record of an
      id that was never used). */
  lemma {:induction false} DeleteUndoesAdd(s: State, m: Medication)
    requires forall i :: 0 <= i < |s.medications| ==> s.medications[i].id != m.id
    requires forall i :: 0 <= i < |s.history| ==> s.history[i].medicationId != m.id
    ensures var r := Reduce(Reduce(s, AddMedication(m)), DeleteMedication(m.id));
      r.medications == s.medications && r.history == s.history
  {
    var keep := (x: Medication) => x.id != m.id;
    FilterAppend(s.medications, [m], keep);
    FilterAll(s.medications, keep);
    FilterAll(s.history, (r: Record) => r.medicationId != m.id);
  }

  /** UPDATE_MEDICATION keeps the list's length and its ids in order, and every medication
      with the payload's id now is the payload while the others are untouched. */
  lemma UpdateReplacesMatching(s: State, p: Medication)
    ensures var r := Reduce(s, UpdateMedication(p));
      Ids(r.medications, MedicationId) == Ids(s.medications, MedicationId) &&
      (forall i :: 0 <= i < |s.medications| ==>
        r.medications[i] == (if s.medications[i].id == p.id then p else s.medications[i])) &&
      r.history == s.history
  {
    var r := Reduce(s, UpdateMedication(p));
    assert |r.medications| == |s.medications|;
  }

  /** ...so a lookup of the payload's id after the update finds the payload, when the id was
      present, and a lookup of any other id finds what it found before. */
  lemma {:induction false} UpdateThenFind(meds: seq<Medication>, p: Medication, id: Id)
    ensures FindMedication(ReplaceById(meds, p), id) ==
      (if id == p.id then (if FindMedication(meds, id).Some? then Some(p) else None)
       else FindMedication(meds, id))
  {
    if meds != [] {
      UpdateThenFind(meds[1..], p, id);
      assert ReplaceById(meds, p)[1..] == ReplaceById(meds[1..], p);
    }
  }

  /** RECORD_CONSUMPTION appends exactly the new record and leaves the earlier ones. */
  lemma RecordAppendsOne(s: State, mid: Id, ts: Instant, taken: bool, rid: Id)
    ensures var r := Reduce(s, RecordConsumption(mid, ts, taken, rid));
      |r.history| == |s.history| + 1 && r.history[..|s.history|] == s.history &&
      r.history[|s.history|] == Record(rid, mid, ts, taken) && r.medications == s.medications
  {
  }

  /** UPDATE_CONSUMPTION changes nothing but the `taken` flag, and only of records with
      the given id; an unknown id leaves the history as it was (no error is raised). */
  lemma UpdateConsumptionOnlyFlag(s: State, rid: Id, taken: bool)
    ensures var r := Reduce(s, UpdateConsumption(rid, taken));
      |r.history| == |s.history| &&
      (forall i :: 0 <= i < |s.history| ==>
        r.history[i].(taken := s.history[i].taken) == s.history[i] &&
        r.history[i].taken == (if s.history[i].id == rid then taken else s.history[i].taken)) &&
      r.medications == s.medications
  {
  }

  lemma UpdateConsumptionUnknownId(s: State, rid: Id, taken: bool)
    requires forall i :: 0 <= i < |s.history| ==> s.history[i].id != rid
    ensures Reduce(s, UpdateConsumption(rid, taken)) == s
  {
    assert SetTaken(s.history, rid, taken) == s.history;
  }

  /** With ids from a fresh supply, the store never holds two medications with one id nor
      two records with one id: every command preserves both properties. */
  lemma ReducePreservesDistinctIds(s: State, a: Action)
    requires NoDuplicates(Ids(s.medications, MedicationId)) && NoDuplicates(Ids(s.history, RecordId))
    requires a.AddMedication? ==> a.medication.id !in Ids(s.medications, MedicationId)
    requires a.GetMedications? ==> NoDuplicates(Ids(a.payload, MedicationId))
    requires a.RecordConsumption? ==> a.recordId !in Ids(s.history, RecordId)
    ensures NoDuplicates(Ids(Reduce(s, a).medications, MedicationId)) && NoDuplicates(Ids(Reduce(s, a).history, RecordId))
  {
    match a
    case DeleteMedication(id) =>
      var r := Reduce(s, a);
      FilterIsSubsequence(s.medications, (m: Medication) => m.id != id);
      FilterIsSubsequence(s.history, (x: Record) => x.medicationId != id);
      SubsequenceKeepsDistinctIds(r.medications, s.medications, MedicationId);
      SubsequenceKeepsDistinctIds(r.history, s.history, RecordId);
    case AddMedication(m) =>
      assert Ids(s.medications + [m], MedicationId) == Ids(s.medications, MedicationId) + [m.id];
    case RecordConsumption(mid, ts, taken, rid) =>
      assert Ids(s.history + [Record(rid, mid, ts, taken)], RecordId) == Ids(s.history, RecordId) + [rid];
    case UpdateMedication(p) =>
      assert Ids(Reduce(s, a).medications, MedicationId) == Ids(s.medications, MedicationId);
    case UpdateConsumption(rid, taken) =>
      assert Ids(Reduce(s, a).history, RecordId) == Ids(s.history, RecordId);
    case _ =>
  }

  /** A subsequence of a list with distinct ids has distinct ids, and its elements are the
      list's. */
  lemma {:induction false} SubsequenceKeepsDistinctIds<T>(sub: seq<T>, xs: seq<T>, id: T -> Id)
    requires Subsequence(sub, xs) && NoDuplicates(Ids(xs, id))
    ensures NoDuplicates(Ids(sub, id))
    ensures forall i :: 0 <= i < |sub| ==> sub[i] in xs
  {
    if sub != [] {
      assert NoDuplicates(Ids(xs[1..], id)) by {
        assert forall i :: 0 <= i < |xs| - 1 ==> Ids(xs[1..], id)[i] == Ids(xs, id)[i + 1];
      }
      if sub[0] == xs[0] && Subsequence(sub[1..], xs[1..]) {
        SubsequenceKeepsDistinctIds(sub[1..], xs[1..], id);
        forall j | 0 < j < |sub| ensures id(sub[j]) != id(sub[0]) {
          assert sub[j] == sub[1..][j - 1];
          var k :| 0 <= k < |xs[1..]| && xs[1..][k] == sub[j];
          assert Ids(xs, id)[k + 1] == id(sub[j]) && Ids(xs, id)[0] == id(sub[0]);
        }
      } else {
        SubsequenceKeepsDistinctIds(sub, xs[1..], id);
      }
    }
  }

  /** `addMedication`: the input spread first, then a fresh `id` and `createdAt`, so the
      fresh id wins over any id that the input carries. */
  function NewMedication(input: Medication, freshId: Id, now: Instant): (m: Medication)
    ensures m.id == freshId && m.createdAt == Some(now)
    ensures m.(id := input.id, createdAt := input.createdAt) == input
  {
    input.(id := freshId, createdAt := Some(now))
  }

  /** `updateMedication`: the medication with `updatedAt` set, every other field kept. */
  function Stamped(med: Medication, now: Instant): (m: Medication)
    ensures m.updatedAt == Some(now) && m.(updatedAt := med.updatedAt) == med
  {
    med.(updatedAt := Some(now))
  }

  // ---------------------------------------------------------------------------------
  // Matching a scheduled dose to the ledger (`checkMedicationTaken`)

  /** How far from the scheduled time a record may lie and still count: 30 minutes, inclusive. */
  const MatchToleranceMillis := 30 * MillisPerMinute

  /** What the matcher reports for a matched record. */
  datatype Status = Status(taken: bool, recordId: Id)

  /** The day's records of a medication: same medication id, same calendar day. */
  predicate OnDay(r: Record, medId: Id, day: int)
  {
    r.medicationId == medId && r.timestamp.day == day
  }

  /** The record lies within the tolerance of `t` on its own day. */
  predicate WithinTolerance(r: Record, t: Time)
  {
    -MatchToleranceMillis <= r.timestamp.millis - MillisAt(t) <= MatchToleranceMillis
  }

  predicate Matches(r: Record, medId: Id, t: Time, day: int)
  {
    OnDay(r, medId, day) && WithinTolerance(r, t)
  }

  function DayRecords(history: seq<Record>, medId: Id, day: int): seq<Record>
  {
    Filter(history, (r: Record) => OnDay(r, medId, day))
  }

  /** `checkMedicationTaken(medicationId, scheduledTime, date)`: null for a missing id or
      time; otherwise the status of the first of the day's records within 30 minutes of
      the scheduled time on `date`'s day. */
  function MatchOccurrence(history: seq<Record>, medId: Id, scheduled: Option<Time>, date: Instant): Option<Status>
  {
    if medId == "" || scheduled.None? then None
    else
      match FirstWith(DayRecords(history, medId, date.day), (r: Record) => WithinTolerance(r, scheduled.value))
      case None => None
      case Some(r) => Some(Status(r.taken, r.id))
  }

  /** The matcher's contract: with an id and a time it finds a record exactly when the
      history holds one of this medication on this day within 30 minutes of the scheduled
      time, and then it reports the first such record in history order. */
  lemma {:induction false} MatchOccurrenceIsFirstMatch(history: seq<Record>, medId: Id, t: Time, date: Instant)
    requires medId != ""
    ensures MatchOccurrence(history, medId, Some(t), date).None? <==>
      forall i :: 0 <= i < |history| ==> !Matches(history[i], medId, t, date.day)
    ensures MatchOccurrence(history, medId, Some(t), date).Some? ==>
      exists i :: 0 <= i < |history| && Matches(history[i], medId, t, date.day) &&
        MatchOccurrence(history, medId, Some(t), date).value == Status(history[i].taken, history[i].id) &&
        forall j :: 0 <= j < i ==> !Matches(history[j], medId, t, date.day)
  {
    var both := (r: Record) => Matches(r, medId, t, date.day);
    FirstWithFilter(history, (r: Record) => OnDay(r, medId, date.day), (r: Record) => WithinTolerance(r, t), both);
    if FirstWith(history, both).Some? {
      FirstWithIsFirst(history, both);
    }
  }

  /** A missing medication id or scheduled time is never matched. */
  lemma MatchNeedsIdAndTime(history: seq<Record>, medId: Id, scheduled: Option<Time>, date: Instant)
    requires medId == "" || scheduled.None?
    ensures MatchOccurrence(history, medId, scheduled, date) == None
  {
  }

  /** Appending records never makes a matched slot unmatched, nor changes which record
      matches it. */
  lemma {:induction false} MatchStableUnderAppend(history: seq<Record>, extra: seq<Record>, medId: Id, t: Option<Time>, date: Instant)
    requires MatchOccurrence(history, medId, t, date).Some?
    ensures MatchOccurrence(history + extra, medId, t, date) == MatchOccurrence(history, medId, t, date)
  {
    var q := (r: Record) => WithinTolerance(r, t.value);
    var p := (r: Record) => OnDay(r, medId, date.day);
    FilterAppend(history, extra, p);
    FirstWithAppend(DayRecords(history, medId, date.day), DayRecords(extra, medId, date.day), q);
  }

  /** Two histories that agree, index by index, on which records match a slot have their
      match at the same index. */
  lemma {:induction false} MatchSamePattern(h: seq<Record>, h': seq<Record>, medId: Id, t: Time, date: Instant, i: nat)
    requires medId != "" && |h| == |h'| && i < |h|
    requires forall j :: 0 <= j < |h| ==> (Matches(h[j], medId, t, date.day) <==> Matches(h'[j], medId, t, date.day))
    requires Matches(h[i], medId, t, date.day) && forall j :: 0 <= j < i ==> !Matches(h[j], medId, t, date.day)
    ensures MatchOccurrence(h', medId, Some(t), date) == Some(Status(h'[i].taken, h'[i].id))
  {
    MatchOccurrenceIsFirstMatch(h', medId, t, date);
    var k :| 0 <= k < |h'| && Matches(h'[k], medId, t, date.day) &&
      MatchOccurrence(h', medId, Some(t), date).value == Status(h'[k].taken, h'[k].id) &&
      forall j :: 0 <= j < k ==> !Matches(h'[j], medId, t, date.day);
    FirstIndexAgree(h, h', (r: Record) => Matches(r, medId, t, date.day), i, k);
  }

  /** Rewriting the flag of the matched record keeps it the match and reports the new flag:
      `SetTaken` changes no timestamp and no medication id, so the same records match. */
  lemma MatchAfterSetTaken(h: seq<Record>, medId: Id, t: Time, date: Instant, taken: bool)
    requires medId != ""
    requires MatchOccurrence(h, medId, Some(t), date).Some?
    ensures MatchOccurrence(SetTaken(h, MatchOccurrence(h, medId, Some(t), date).value.recordId, taken), medId, Some(t), date)
      == Some(Status(taken, MatchOccurrence(h, medId, Some(t), date).value.recordId))
  {
    var m := MatchOccurrence(h, medId, Some(t), date).value;
    MatchOccurrenceIsFirstMatch(h, medId, t, date);
    var i :| 0 <= i < |h| && Matches(h[i], medId, t, date.day) && m == Status(h[i].taken, h[i].id) &&
      forall j :: 0 <= j < i ==> !Matches(h[j], medId, t, date.day);
    SetTakenKeepsMatches(h, m.recordId, taken, medId, t, date.day);
    MatchSamePattern(h, SetTaken(h, m.recordId, taken), medId, t, date, i);
  }

  /** `SetTaken` changes the flag of the records with the id and nothing else. */
  lemma SetTakenKeepsMatches(h: seq<Record>, rid: Id, taken: bool, medId: Id, t: Time, day: int)
    ensures |SetTaken(h, rid, taken)| == |h|
    ensures forall j :: 0 <= j < |h| ==>
      (Matches(SetTaken(h, rid, taken)[j], medId, t, day) <==> Matches(h[j], medId, t, day))
    ensures forall j :: 0 <= j < |h| && h[j].id == rid ==> SetTaken(h, rid, taken)[j] == h[j].(taken := taken)
  {
  }

  /** Appending a record that matches a slot with no match yet makes that record the match. */
  lemma {:induction false} MatchAfterAppend(h: seq<Record>, medId: Id, t: Time, date: Instant, r: Record)
    requires medId != ""
    requires MatchOccurrence(h, medId, Some(t), date).None?
    requires Matches(r, medId, t, date.day)
    ensures MatchOccurrence(h + [r], medId, Some(t), date) == Some(Status(r.taken, r.id))
  {
    var h' := h + [r];
    MatchOccurrenceIsFirstMatch(h, medId, t, date);
    MatchOccurrenceIsFirstMatch(h', medId, t, date);
    assert Matches(h'[|h|], medId, t, date.day);
    var k :| 0 <= k < |h'| && Matches(h'[k], medId, t, date.day) &&
      MatchOccurrence(h', medId, Some(t), date).value == Status(h'[k].taken, h'[k].id) &&
      forall j :: 0 <= j < k ==> !Matches(h'[j], medId, t, date.day);
  }

  /** A record taken at 10:15 matches the 10:00 slot of its day; one at 11:00 does not. */
  lemma MatchScenarioQuarterPast(medId: Id, rid: Id, day: int, now: MillisOfDay)
    requires medId != ""
    ensures MatchOccurrence([Record(rid, medId, Instant(day, MillisAt(Time(10, 15))), true)], medId, Some(Time(10, 0)), Instant(day, now))
      == Some(Status(true, rid))
    ensures MatchOccurrence([Record(rid, medId, Instant(day, MillisAt(Time(11, 0))), true)], medId, Some(Time(10, 0)), Instant(day, now))
      == None
  {
  }

  /** The window is inclusive: a record at 09:00 matches the 08:30 slot, one at 09:01 does not,
      and a record on another day never matches. */
  lemma MatchScenarioBoundary(medId: Id, rid: Id, day: int, now: MillisOfDay)
    requires medId != ""
    ensures MatchOccurrence([Record(rid, medId, Instant(day, MillisAt(Time(9, 0))), true)], medId, Some(Time(8, 30)), Instant(day, now))
      == Some(Status(true, rid))
    ensures MatchOccurrence([Record(rid, medId, Instant(day, MillisAt(Time(9, 1))), true)], medId, Some(Time(8, 30)), Instant(day, now))
      == None
    ensures MatchOccurrence([Record(rid, medId, Instant(day + 1, MillisAt(Time(8, 30))), true)], medId, Some(Time(8, 30)), Instant(day, now))
      == None
  {
    var onTime := Record(rid, medId, Instant(day, MillisAt(Time(9, 0))), true);
    var late := Record(rid, medId, Instant(day, MillisAt(Time(9, 1))), true);
    var nextDay := Record(rid, medId, Instant(day + 1, MillisAt(Time(8, 30))), true);
    assert DayRecords([onTime], medId, day) == [onTime] && WithinTolerance(onTime, Time(8, 30));
    assert DayRecords([late], medId, day) == [late] && !WithinTolerance(late, Time(8, 30));
    assert DayRecords([nextDay], medId, day) == [];
  }

  /** Two records of one day inside the window of 08:00: the earlier entry of the history is
      reported, whatever the records' own times. */
  lemma MatchScenarioTwoInWindow(medId: Id, day: int, now: MillisOfDay)
    requires medId != ""
    ensures var h := [Record("late", medId, Instant(day, MillisAt(Time(8, 20))), false),
                      Record("early", medId, Instant(day, MillisAt(Time(7, 50))), true)];
      MatchOccurrence(h, medId, Some(Time(8, 0)), Instant(day, now)) == Some(Status(false, "late"))
  {
  }

  lemma {:induction false} FirstWithAppend<T>(xs: seq<T>, ys: seq<T>, p: T -> bool)
    requires FirstWith(xs, p).Some?
    ensures FirstWith(xs + ys, p) == FirstWith(xs, p)
  {
    assert (xs + ys)[0] == xs[0];
    if !p(xs[0]) {
      assert (xs + ys)[1..] == xs[1..] + ys;
      FirstWithAppend(xs[1..], ys, p);
    }
  }

  /** What persistent storage yields for a key: nothing, text that does not parse, or a value. */
  datatype Stored<T> = Absent | Unreadable | Parsed(value: T)

  const LoadError := "Failed to load medications"
  const FetchError := "Failed to fetch medications"

  /** The command `getMedications` dispatches after SET_LOADING. */
  function FetchAction(stored: Stored<seq<Medication>>): (a: Action)
    ensures a.SetError? <==> stored.Unreadable?
    ensures a.GetMedications? ==> a.payload == (if stored.Parsed? then stored.value else [])
  {
    match stored
    case Absent => Action.GetMedications([])
    case Parsed(meds) => Action.GetMedications(meds)
    case Unreadable => SetError(FetchError)
  }

  /** The store as the provider holds it. Its actions dispatch reducer commands; the writes
      to persistent storage that accompany them are not part of this model. */
  class Store {
    var medications: seq<Medication>
    var history: seq<Record>
    var loading: bool
    var error: Option<string>

    function Snapshot(): State
      reads this
    {
      State(medications, history, loading, error)
    }

    /** The initial state: what persistent storage held under each key, or nothing. */
    constructor (storedMedications: Option<seq<Medication>>, storedHistory: Option<seq<Record>>)
      ensures medications == (if storedMedications.Some? then storedMedications.value else [])
      ensures history == (if storedHistory.Some? then storedHistory.value else [])
      ensures !loading && error == None
    {
      medications := if storedMedications.Some? then storedMedications.value else [];
      history := if storedHistory.Some? then storedHistory.value else [];
      loading := false;
      error := None;
    }

    method Dispatch(a: Action)
      modifies this
      ensures Snapshot() == Reduce(old(Snapshot()), a)
    {
      var s := Reduce(Snapshot(), a);
      medications, history, loading, error := s.medications, s.history, s.loading, s.error;
    }

    /** `addMedication`, with the id drawn from the uuid supply and the clock reading passed in. */
    method AddMedication(input: Medication, freshId: Id, now: Instant)
      modifies this
      ensures Snapshot() == Reduce(old(Snapshot()), Action.AddMedication(NewMedication(input, freshId, now)))
      ensures medications == old(medications) + [NewMedication(input, freshId, now)]
    {
      Dispatch(Action.AddMedication(NewMedication(input, freshId, now)));
    }

    method UpdateMedication(med: Medication, now: Instant)
      modifies this
      ensures Snapshot() == Reduce(old(Snapshot()), Action.UpdateMedication(Stamped(med, now)))
    {
      Dispatch(Action.UpdateMedication(Stamped(med, now)));
    }

    method DeleteMedication(id: Id)
      modifies this
      ensures Snapshot() == Reduce(old(Snapshot()), Action.DeleteMedication(id))
    {
      Dispatch(Action.DeleteMedication(id));
    }

    /** `getMedications`: SET_LOADING, then GET_MEDICATIONS with what storage holds (nothing
        when the key is unset), or SET_ERROR when the stored text cannot be parsed. */
    method GetMedications(stored: Stored<seq<Medication>>)
      modifies this
      ensures Snapshot() == Reduce(Reduce(old(Snapshot()), SetLoading), FetchAction(stored))
      ensures !loading
      ensures stored.Unreadable? ==> medications == old(medications) && error == Some(FetchError)
      ensures !stored.Unreadable? ==> medications == (if stored.Parsed? then stored.value else []) && error == old(error)
    {
      Dispatch(SetLoading);
      Dispatch(FetchAction(stored));
    }

    /** The provider's mount effect: GET_MEDICATIONS only when storage holds medications,
        SET_ERROR when their text cannot be parsed. */
    method LoadOnMount(stored: Stored<seq<Medication>>)
      modifies this
      ensures stored.Absent? ==> Snapshot() == old(Snapshot())
      ensures stored.Parsed? ==> Snapshot() == Reduce(old(Snapshot()), Action.GetMedications(stored.value))
      ensures stored.Unreadable? ==> Snapshot() == Reduce(old(Snapshot()), SetError(LoadError))
    {
      match stored
      case Absent =>
      case Parsed(meds) => Dispatch(Action.GetMedications(meds));
      case Unreadable => Dispatch(SetError(LoadError));
    }

    /** `recordConsumption(medicationId, timestamp, taken)`; `freshId` is the id the reducer
        draws for the record. */
    method RecordConsumption(medicationId: Id, timestamp: Instant, taken: bool, freshId: Id)
      modifies this
      ensures Snapshot() == Reduce(old(Snapshot()), Action.RecordConsumption(medicationId, timestamp, taken, freshId))
      ensures history == old(history) + [Record(freshId, medicationId, timestamp, taken)]
      ensures medications == old(medications)
    {
      Dispatch(Action.RecordConsumption(medicationId, timestamp, taken, freshId));
    }

    method UpdateConsumption(recordId: Id, taken: bool)
      modifies this
      ensures Snapshot() == Reduce(old(Snapshot()), Action.UpdateConsumption(recordId, taken))
      ensures history == SetTaken(old(history), recordId, taken) && medications == old(medications)
    {
      Dispatch(Action.UpdateConsumption(recordId, taken));
    }

    /** `getMedicationConsumptionHistory(medicationId)`: that medication's records, in order. */
    function ConsumptionHistoryOf(medId: Id): (r: seq<Record>)
      reads this
      ensures forall i :: 0 <= i < |r| ==> r[i].medicationId == medId && r[i] in history
      ensures forall i :: 0 <= i < |history| && history[i].medicationId == medId ==> history[i] in r
      ensures Subsequence(r, history)
    {
      FilterIsSubsequence(history, (x: Record) => x.medicationId == medId);
      Filter(history, (x: Record) => x.medicationId == medId)
    }

    /** `checkMedicationTaken`: the day's records are filtered out of the history, then
        scanned in order until one lies within 30 minutes of the scheduled time. */
    method CheckMedicationTaken(medId: Id, scheduled: Option<Time>, date: Instant) returns (r: Option<Status>)
      ensures r == MatchOccurrence(history, medId, scheduled, date)
      ensures r.Some? ==>
                scheduled.Some? && exists i :: 0 <= i < |history| && Matches(history[i], medId, scheduled.value, date.day) && r.value == Status(history[i].taken, history[i].id)
      ensures r.None? && medId != "" && scheduled.Some? ==>
        forall i :: 0 <= i < |history| ==> !Matches(history[i], medId, scheduled.value, date.day)
    {
      if medId == "" || scheduled.None? {
        return None;
      }
      MatchOccurrenceIsFirstMatch(history, medId, scheduled.value, date);
      var t := scheduled.value;
      var dayRecords := DayRecords(history, medId, date.day);
      var within := (x: Record) => WithinTolerance(x, t);
      var i := 0;
      while i < |dayRecords|
        invariant 0 <= i <= |dayRecords|
        invariant FirstWith(dayRecords, within) == FirstWith(dayRecords[i..], within)
      {
        var record := dayRecords[i];
        if -MatchToleranceMillis <= record.timestamp.millis - MillisAt(t) <= MatchToleranceMillis {
          return Some(Status(record.taken, record.id));
        }
        assert dayRecords[i..][1..] == dayRecords[i + 1..];
        i := i + 1;
      }
      return None;
    }
  }
}
