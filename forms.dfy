/** What the add and edit pages share (src/pages/AddMedication.js, src/pages/EditMedication.js):
    the form's fields, their validation, and the editing of the sorted list of times. The
    times are kept as `Time` values; the pages keep their "HH:MM" texts, whose string order
    is chronological order (see `TimeText.FormatOrder`). */
module MedicationForm {
  import opened Common
  import opened Sorting
  import opened Medications

  /** A form field that holds text typed by the user, or the number the edit page loads
      into it from the stored medication. */
  datatype Entry = Text(text: string) | Num(n: nat)

  /** JavaScript truthiness of a field: non-empty text, or a non-zero number. */
  predicate EntryTruthy(e: Entry)
  {
    match e
    case Text(s) => s != ""
    case Num(n) => n != 0
  }

  /** `Number(field)`, with `parse` standing for `Number` on text: `None` is NaN. */
  function EntryNumber(e: Entry, parse: string -> Option<nat>): Option<nat>
  {
    match e
    case Text(s) => parse(s)
    case Num(n) => Some(n)
  }

  /** The form state of both pages. */
  datatype Form = Form(
    name: string,
    description: string,
    dosage: Entry,
    unit: string,
    quantity: Entry,
    category: string,
    instructions: string,
    schedule: seq<Time>)

  /** The characters `String.prototype.trim` removes that the model knows: ASCII white space
      and the no-break space. */
  predicate IsSpace(c: char)
  {
    c == ' ' || c == '\t' || c == '\n' || c == '\r' || c == '\U{000B}' || c == '\U{000C}' || c == '\U{00A0}'
  }

  /** `s.trim() === ''`. */
  predicate Blank(s: string)
  {
    forall i :: 0 <= i < |s| ==> IsSpace(s[i])
  }

  datatype Field = NameField | DosageField | UnitField | QuantityField

  const AllFields: set<Field> := {NameField, DosageField, UnitField, QuantityField}

  /** The rule each field must satisfy. */
  predicate Violates(f: Field, form: Form, parse: string -> Option<nat>)
  {
    match f
    case NameField => Blank(form.name)
    case DosageField => !EntryTruthy(form.dosage)
    case UnitField => form.unit == ""
    case QuantityField => EntryTruthy(form.quantity) && EntryNumber(form.quantity, parse).None?
  }

  /** The fields that `validateForm` reports. */
  function Problems(form: Form, parse: string -> Option<nat>): set<Field>
  {
    set f | f in AllFields && Violates(f, form, parse)
  }

  /** A form passes exactly when its name is not blank, it has a dosage and a unit, and its
      quantity is empty or a number. */
  lemma PassesIff(form: Form, parse: string -> Option<nat>)
    ensures Problems(form, parse) == {} <==>
      !Blank(form.name) && EntryTruthy(form.dosage) && form.unit != "" &&
      (!EntryTruthy(form.quantity) || EntryNumber(form.quantity, parse).Some?)
  {
    if Problems(form, parse) == {} {
      assert NameField !in Problems(form, parse) && DosageField !in Problems(form, parse);
      assert UnitField !in Problems(form, parse) && QuantityField !in Problems(form, parse);
    } else {
      var f :| f in Problems(form, parse);
    }
  }

  /** A name of spaces only, the empty name included, is refused; a name with any other
      character passes the name rule, wherever that character stands. */
  lemma BlankNames(form: Form, parse: string -> Option<nat>, k: nat)
    ensures (forall i :: 0 <= i < |form.name| ==> form.name[i] == ' ') ==> NameField in Problems(form, parse)
    ensures k < |form.name| && !IsSpace(form.name[k]) ==> NameField !in Problems(form, parse)
    ensures NameField in Problems(form.(name := "   "), parse) && NameField !in Problems(form.(name := "  a "), parse)
  {
    if forall i :: 0 <= i < |form.name| ==> form.name[i] == ' ' {
      assert Violates(NameField, form, parse);
    }
    assert "  a "[2] == 'a' && !Blank("  a ");
    assert Violates(NameField, form.(name := "   "), parse);
  }

  /** `validateForm`: one error for each rule the form breaks, collected field by field. */
  method ValidateForm(form: Form, parse: string -> Option<nat>) returns (errors: set<Field>)
    ensures errors == Problems(form, parse)
  {
    errors := {};
    if Blank(form.name) { errors := errors + {NameField}; }
    if !EntryTruthy(form.dosage) { errors := errors + {DosageField}; }
    if form.unit == "" { errors := errors + {UnitField}; }
    if EntryTruthy(form.quantity) && EntryNumber(form.quantity, parse).None? { errors := errors + {QuantityField}; }
    assert forall f :: f in errors <==> f in AllFields && Violates(f, form, parse);
  }

  // ---------------------------------------------------------------------------------
  // The list of times

  /** Strictly increasing by minute of day: sorted and without repeats. */
  predicate Chronological(ts: seq<Time>)
  {
    forall i, j :: 0 <= i < j < |ts| ==> MinuteOfDay(ts[i]) < MinuteOfDay(ts[j])
  }

  /** `handleAddSchedule` for the picked time, if any: a time not yet listed is added and
      the list re-sorted. */
  function AddScheduleTime(ts: seq<Time>, picked: Option<Time>): (r: seq<Time>)
    ensures picked.None? || picked.value in ts ==> r == ts
    ensures picked.Some? && picked.value !in ts ==>
      |r| == |ts| + 1 && multiset(r) == multiset(ts) + multiset{picked.value} && SortedBy(r, MinuteOfDay)
  {
    if picked.None? || picked.value in ts then ts
    else
      SortByPermutes(ts + [picked.value], MinuteOfDay);
      SortBy(ts + [picked.value], MinuteOfDay)
  }

  /** Adding keeps the list sorted and free of repeats, and the picked time is then listed. */
  lemma AddKeepsChronological(ts: seq<Time>, picked: Option<Time>)
    requires Chronological(ts)
    ensures Chronological(AddScheduleTime(ts, picked))
    ensures picked.Some? ==> picked.value in AddScheduleTime(ts, picked)
  {
    if picked.Some? && picked.value !in ts {
      var t := picked.value;
      SortByAppend(ts, t, MinuteOfDay);
      forall i | 0 <= i < |ts| ensures MinuteOfDay(ts[i]) != MinuteOfDay(t) {
        if MinuteOfDay(ts[i]) == MinuteOfDay(t) {
          MinuteOfDayInjective(ts[i], t);
        }
      }
      assert StrictlySortedBy(ts, MinuteOfDay);
      InsertByStrict(t, ts, MinuteOfDay);
      assert t in multiset(AddScheduleTime(ts, picked));
    }
  }

  /** `handleRemoveSchedule(time)`. */
  function RemoveScheduleTime(ts: seq<Time>, t: Time): seq<Time>
  {
    Filter(ts, (x: Time) => x != t)
  }

  /** Removing deletes exactly that time and keeps the others in their order. */
  lemma RemoveDeletesOnly(ts: seq<Time>, t: Time)
    ensures t !in RemoveScheduleTime(ts, t)
    ensures forall i :: 0 <= i < |ts| && ts[i] != t ==> ts[i] in RemoveScheduleTime(ts, t)
    ensures Subsequence(RemoveScheduleTime(ts, t), ts)
  {
    FilterIsSubsequence(ts, (x: Time) => x != t);
  }

  /** The elements kept by a filter of a strictly increasing list are strictly increasing. */
  lemma {:induction false} FilterKeepsChronological(ts: seq<Time>, p: Time -> bool)
    requires Chronological(ts)
    ensures Chronological(Filter(ts, p))
  {
    if ts != [] {
      var tail := Filter(ts[1..], p);
      ChronologicalTail(ts);
      FilterKeepsChronological(ts[1..], p);
      if p(ts[0]) {
        forall j | 0 <= j < |tail| ensures MinuteOfDay(ts[0]) < MinuteOfDay(tail[j]) {
          var k :| 0 <= k < |ts[1..]| && ts[1..][k] == tail[j];
          assert ts[1..][k] == ts[k + 1];
        }
        ChronologicalCons(ts[0], tail);
        assert Filter(ts, p) == [ts[0]] + tail;
      } else {
        assert Filter(ts, p) == tail;
      }
    }
  }

  lemma ChronologicalTail(ts: seq<Time>)
    requires Chronological(ts) && ts != []
    ensures Chronological(ts[1..])
  {
    forall i, j | 0 <= i < j < |ts| - 1 ensures MinuteOfDay(ts[1..][i]) < MinuteOfDay(ts[1..][j]) {
      assert ts[1..][i] == ts[i + 1] && ts[1..][j] == ts[j + 1];
    }
  }

  lemma ChronologicalCons(t: Time, ts: seq<Time>)
    requires Chronological(ts)
    requires forall j :: 0 <= j < |ts| ==> MinuteOfDay(t) < MinuteOfDay(ts[j])
    ensures Chronological([t] + ts)
  {
    var r := [t] + ts;
    assert forall j :: 0 < j < |r| ==> r[j] == ts[j - 1];
  }

  lemma RemoveKeepsChronological(ts: seq<Time>, t: Time)
    requires Chronological(ts)
    ensures Chronological(RemoveScheduleTime(ts, t))
  {
    FilterKeepsChronological(ts, (x: Time) => x != t);
  }

  /** What the pages store as a medication's schedule: a `daily` object for all seven days
      with the listed times. */
  function DailySchedule(ts: seq<Time>): Schedule
  {
    Tagged("daily", DayNames, Some(ts))
  }

  /** `quantity ? Number(quantity) : null`. */
  function StoredQuantity(e: Entry, parse: string -> Option<nat>): (r: Option<nat>)
    ensures !EntryTruthy(e) ==> r.None?
    ensures EntryTruthy(e) ==> r == EntryNumber(e, parse)
  {
    if EntryTruthy(e) then EntryNumber(e, parse) else None
  }

  /** `category || null`. */
  function StoredCategory(c: string): (r: Option<string>)
    ensures r.None? <==> c == ""
    ensures r.Some? ==> r.value == c
  {
    if c == "" then None else Some(c)
  }
}
