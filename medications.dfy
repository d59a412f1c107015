/** The stored data of the tracker: medications with their schedules, and consumption
    records. Also the readings of a schedule that several pages share. */
module Medications {
  import opened Common

  /** A medication's schedule as it is stored. The current form is an object
      `{type, days, times}` written by the editors; older data holds a bare array of times.
      `times` is `None` when the object has no `times` array. */
  datatype Schedule =
    | Legacy(list: seq<Time>)
    | Tagged(kind: string, days: seq<string>, times: Option<seq<Time>>)

  /** A medication as stored. Text fields hold "" when absent; `dosage` is `None` when null
      or not a number (the two read alike wherever a dosage is used); `quantity` is `None`
      when JSON `null`, as the editors write an empty quantity; `schedule` is `None` when
      missing. `frequency` is the field of older data that the travel planner falls back on. */
  datatype Medication = Medication(
    id: Id,
    name: string,
    description: string,
    dosage: Option<nat>,
    unit: string,
    quantity: Option<nat>,
    category: Option<string>,
    instructions: string,
    schedule: Option<Schedule>,
    frequency: string,
    createdAt: Option<Instant>,
    updatedAt: Option<Instant>)

  /** One check-in: the medication was taken (`taken`) or skipped (`!taken`) at `timestamp`. */
  datatype Record = Record(id: Id, medicationId: Id, timestamp: Instant, taken: bool)

  /** JavaScript truthiness of a stored number: present, a number, and not zero. */
  predicate Truthy(v: Option<nat>) { v.Some? && v.value != 0 }

  /** The times a page lists for a schedule: `schedule.times` when it is an array, else the
      legacy array, else none. The editors' load effect, the detail page's times list, the
      client dashboard's per-time entries, the weekly schedule and the status check all read
      a schedule this way. */
  function TimesOf(s: Option<Schedule>): seq<Time>
  {
    match s
    case None => []
    case Some(Legacy(list)) => list
    case Some(Tagged(_, _, times)) => if times.Some? then times.value else []
  }

  /** `schedule.length`: the length of a legacy array; a schedule object has no `length`. */
  function ArrayLength(s: Option<Schedule>): (r: Option<nat>)
    ensures r.Some? <==> s.Some? && s.value.Legacy?
  {
    if s.Some? && s.value.Legacy? then Some(|s.value.list|) else None
  }

  /** A legacy array of times reads exactly like the `daily` object holding the same times. */
  lemma LegacyReadsAsDaily(ts: seq<Time>)
    ensures TimesOf(Some(Legacy(ts))) == TimesOf(Some(Tagged("daily", DayNames, Some(ts))))
  {
  }

  /** `medications.find(m => m.id === id)`. */
  function FindMedication(meds: seq<Medication>, id: Id): (r: Option<Medication>)
    ensures r.Some? ==> r.value in meds && r.value.id == id
    ensures r.None? <==> forall i :: 0 <= i < |meds| ==> meds[i].id != id
  {
    FirstWith(meds, (m: Medication) => m.id == id)
  }

  /** What the detail and edit pages show for the id in their route. */
  datatype Lookup = Pending | NotFound | Found(medication: Medication)

  /** The pages look the id up only once the medication list is non-empty; before that
      neither the medication nor "not found" is set. */
  function LookupPage(meds: seq<Medication>, id: Id): (r: Lookup)
    ensures r.Pending? <==> |meds| == 0
    ensures r.NotFound? <==> |meds| > 0 && forall i :: 0 <= i < |meds| ==> meds[i].id != id
    ensures r.Found? ==> r.medication in meds && r.medication.id == id
  {
    if |meds| == 0 then Pending
    else match FindMedication(meds, id)
      case Some(m) => Found(m)
      case None => NotFound
  }

  /** The ids of a list, in list order (`medications.map(med => med.id)` and the like). */
  function Ids<T>(xs: seq<T>, id: T -> Id): (r: seq<Id>)
    ensures |r| == |xs| && forall i :: 0 <= i < |xs| ==> r[i] == id(xs[i])
  {
    seq(|xs|, i requires 0 <= i < |xs| => id(xs[i]))
  }

  function MedicationId(m: Medication): Id { m.id }

  function RecordId(r: Record): Id { r.id }

  // ---------------------------------------------------------------------------------
  // One row per scheduled time

  /** The rows of one medication: `f` applied to each of its times, in order. */
  function RowsOf<E>(med: Medication, f: (Medication, Time) -> E): (r: seq<E>)
    ensures |r| == |TimesOf(med.schedule)|
    ensures forall k :: 0 <= k < |r| ==> r[k] == f(med, TimesOf(med.schedule)[k])
  {
    seq(|TimesOf(med.schedule)|, k requires 0 <= k < |TimesOf(med.schedule)| => f(med, TimesOf(med.schedule)[k]))
  }

  /** The number of times all the medications list together. */
  function TimeCount(meds: seq<Medication>): nat
  {
    if meds == [] then 0 else TimeCount(meds[..|meds| - 1]) + |TimesOf(meds[|meds| - 1].schedule)|
  }

  /** The pages' `flatMap` over medications and their times (and the nested loops that
      push one row per time): one row per pair, medications in list order and each
      medication's times in its own order. */
  function PerTime<E>(meds: seq<Medication>, f: (Medication, Time) -> E): (r: seq<E>)
    ensures |r| == TimeCount(meds)
  {
    if meds == [] then [] else PerTime(meds[..|meds| - 1], f) + RowsOf(meds[|meds| - 1], f)
  }

  /** One more medication adds its rows at the end. */
  lemma PerTimeSnoc<E>(meds: seq<Medication>, i: nat, f: (Medication, Time) -> E)
    requires i < |meds|
    ensures PerTime(meds[..i + 1], f) == PerTime(meds[..i], f) + RowsOf(meds[i], f)
  {
    assert meds[..i + 1][..i] == meds[..i];
  }

  /** Flattening a concatenation concatenates the flattenings. */
  lemma {:induction false} PerTimeAppend<E>(a: seq<Medication>, b: seq<Medication>, f: (Medication, Time) -> E)
    ensures PerTime(a + b, f) == PerTime(a, f) + PerTime(b, f)
  {
    if b == [] {
      assert a + b == a;
    } else {
      var b' := b[..|b| - 1];
      var last := b[|b| - 1];
      assert (a + b)[..|a + b| - 1] == a + b';
      assert (a + b)[|a + b| - 1] == last;
      PerTimeAppend(a, b', f);
      calc {
        PerTime(a + b, f);
        PerTime(a + b', f) + RowsOf(last, f);
        (PerTime(a, f) + PerTime(b', f)) + RowsOf(last, f);
        PerTime(a, f) + (PerTime(b', f) + RowsOf(last, f));
        PerTime(a, f) + PerTime(b, f);
      }
    }
  }

  /** A row is listed exactly when it is the row of some time of some medication. */
  lemma {:induction false} PerTimeMembers<E>(meds: seq<Medication>, f: (Medication, Time) -> E, x: E)
    ensures x in PerTime(meds, f) <==>
      exists i, k :: 0 <= i < |meds| && 0 <= k < |TimesOf(meds[i].schedule)| && x == f(meds[i], TimesOf(meds[i].schedule)[k])
  {
    if meds != [] {
      var n := |meds| - 1;
      var init := meds[..n];
      PerTimeMembers(init, f, x);
      if x in PerTime(meds, f) {
        if x in PerTime(init, f) {
          var i, k :| 0 <= i < |init| && 0 <= k < |TimesOf(init[i].schedule)| && x == f(init[i], TimesOf(init[i].schedule)[k]);
          assert init[i] == meds[i];
        } else {
          var rows := RowsOf(meds[n], f);
          var k :| 0 <= k < |rows| && rows[k] == x;
          assert x == f(meds[n], TimesOf(meds[n].schedule)[k]);
        }
      } else {
        forall i, k | 0 <= i < |meds| && 0 <= k < |TimesOf(meds[i].schedule)|
          ensures x != f(meds[i], TimesOf(meds[i].schedule)[k])
        {
          if i < n {
            assert init[i] == meds[i];
          } else {
            assert RowsOf(meds[n], f)[k] == f(meds[i], TimesOf(meds[i].schedule)[k]);
          }
        }
      }
    }
  }

  /** Flattening a filtered list: a row is listed exactly when it is the row of some time of
      some medication the filter keeps. */
  lemma PerTimeFilterMembers<E>(meds: seq<Medication>, p: Medication -> bool, f: (Medication, Time) -> E, x: E)
    ensures x in PerTime(Filter(meds, p), f) <==>
      exists i, k :: 0 <= i < |meds| && p(meds[i]) && 0 <= k < |TimesOf(meds[i].schedule)| && x == f(meds[i], TimesOf(meds[i].schedule)[k])
  {
    if x in PerTime(Filter(meds, p), f) {
      PerTimeFilterSound(meds, p, f, x);
    } else {
      forall i, k | 0 <= i < |meds| && p(meds[i]) && 0 <= k < |TimesOf(meds[i].schedule)|
        ensures x != f(meds[i], TimesOf(meds[i].schedule)[k])
      {
        if x == f(meds[i], TimesOf(meds[i].schedule)[k]) {
          PerTimeFilterComplete(meds, p, f, i, k);
        }
      }
    }
  }

  lemma PerTimeFilterSound<E>(meds: seq<Medication>, p: Medication -> bool, f: (Medication, Time) -> E, x: E)
    requires x in PerTime(Filter(meds, p), f)
    ensures exists i, k :: 0 <= i < |meds| && p(meds[i]) && 0 <= k < |TimesOf(meds[i].schedule)| && x == f(meds[i], TimesOf(meds[i].schedule)[k])
  {
    var kept := Filter(meds, p);
    PerTimeMembers(kept, f, x);
    var i, k :| 0 <= i < |kept| && 0 <= k < |TimesOf(kept[i].schedule)| && x == f(kept[i], TimesOf(kept[i].schedule)[k]);
    assert kept[i] in meds && p(kept[i]);
    var j :| 0 <= j < |meds| && meds[j] == kept[i];
    assert p(meds[j]) && x == f(meds[j], TimesOf(meds[j].schedule)[k]);
  }

  lemma PerTimeFilterComplete<E>(meds: seq<Medication>, p: Medication -> bool, f: (Medication, Time) -> E, i: nat, k: nat)
    requires i < |meds| && p(meds[i]) && k < |TimesOf(meds[i].schedule)|
    ensures f(meds[i], TimesOf(meds[i].schedule)[k]) in PerTime(Filter(meds, p), f)
  {
    var kept := Filter(meds, p);
    assert meds[i] in kept;
    var j :| 0 <= j < |kept| && kept[j] == meds[i];
    PerTimeMembers(kept, f, f(meds[i], TimesOf(meds[i].schedule)[k]));
    assert f(meds[i], TimesOf(meds[i].schedule)[k]) == f(kept[j], TimesOf(kept[j].schedule)[k]);
  }
}
