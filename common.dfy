/** Values shared by every part of the medication tracker: optional values, identifiers,
    wall-clock times of day, instants, weekday names, and two generic sequence helpers
    (the `filter` and `find` of JavaScript arrays). */
module Common {

  datatype Option<+T> = None | Some(value: T)

  /** Medication and consumption-record identifiers are opaque strings (uuids);
      the empty string stands for a missing identifier. */
  type Id = string

  type Hour = h: int | 0 <= h < 24
  type Minute = m: int | 0 <= m < 60

  /** A time of day as the schedule editors pick it: hour and minute of the local clock. */
  datatype Time = Time(hour: Hour, minute: Minute)

  const MinutesPerDay := 1440
  const MillisPerMinute := 60_000
  const MillisPerHour := 3_600_000
  const MillisPerDay := 86_400_000

  type MillisOfDay = ms: int | 0 <= ms < 86_400_000

  /** A point in time: a calendar day number and the milliseconds elapsed since local midnight. */
  datatype Instant = Instant(day: int, millis: MillisOfDay)

  /** Position of a time of day on a 0..1439 minute scale; every comparison of
      times in the application reduces to a comparison of these numbers. */
  function MinuteOfDay(t: Time): (r: int)
    ensures 0 <= r < MinutesPerDay
  {
    t.hour * 60 + t.minute
  }

  /** `MinuteOfDay` loses nothing: two times with the same position are the same time. */
  lemma MinuteOfDayInjective(a: Time, b: Time)
    requires MinuteOfDay(a) == MinuteOfDay(b)
    ensures a == b
  {
  }

  /** Milliseconds since midnight at which `t` falls (seconds and milliseconds zero),
      what `setHours(h, m, 0, 0)` produces on a given day. */
  function MillisAt(t: Time): MillisOfDay
  {
    t.hour * 3_600_000 + t.minute * 60_000
  }

  /** The hour and minute fields of an instant, as `getHours()` and `getMinutes()` return them. */
  function HourOf(i: Instant): Hour { i.millis / 3_600_000 }
  function MinuteOf(i: Instant): Minute { (i.millis / 60_000) % 60 }

  /** An instant at `MillisAt(t)` reads back as `t` on the clock. */
  lemma MillisAtClock(t: Time, day: int)
    ensures HourOf(Instant(day, MillisAt(t))) == t.hour
    ensures MinuteOf(Instant(day, MillisAt(t))) == t.minute
  {
    var ms := MillisAt(t);
    assert ms / 60_000 == t.hour * 60 + t.minute;
  }

  /** The instant on a single time line, for comparing instants of different days. */
  function Absolute(i: Instant): int { i.day * 86_400_000 + i.millis }

  /** `Math.floor(q / m)` on whole numbers: the whole number of times `m` fits into `q`. */
  function FloorDiv(q: nat, m: nat): (r: nat)
    requires m > 0
    ensures r * m <= q < (r + 1) * m
  {
    assert q == m * (q / m) + q % m;
    q / m
  }

  /** `Math.floor(q / m) < k` holds exactly when `q / m < k` holds for the exact quotient,
      that is when `q < k * m`: comparing the floored or the exact number of days against a
      whole threshold gives the same answer. */
  lemma FloorDivBelow(q: nat, m: nat, k: nat)
    requires m > 0
    ensures FloorDiv(q, m) < k <==> q < k * m
  {
    var d := FloorDiv(q, m);
    if d < k {
      assert d + 1 <= k;
      assert (d + 1) * m <= k * m;
    } else {
      assert d * m >= k * m;
    }
  }

  /** Weekday names in `Date.getDay()` order: index 0 is Sunday. */
  const DayNames: seq<string> := ["sunday", "monday", "tuesday", "wednesday", "thursday", "friday", "saturday"]

  type Weekday = d: int | 0 <= d < 7

  /** `getDay()` of a calendar day number; day 0 is 1 January 1970, a Thursday. */
  function WeekdayOf(day: int): Weekday { (day + 4) % 7 }

  /** The weekday name the scanner and the client dashboard compare against. */
  function DayName(day: int): string { DayNames[WeekdayOf(day)] }

  /** JavaScript's `xs.filter(p)`. */
  function Filter<T>(xs: seq<T>, p: T -> bool): (r: seq<T>)
    ensures |r| <= |xs|
    ensures forall i :: 0 <= i < |r| ==> r[i] in xs && p(r[i])
    ensures forall i :: 0 <= i < |xs| && p(xs[i]) ==> xs[i] in r
  {
    if xs == [] then [] else (if p(xs[0]) then [xs[0]] else []) + Filter(xs[1..], p)
  }

  /** `sub` is `xs` with some elements left out and the rest in their original order. */
  predicate Subsequence<T(==)>(sub: seq<T>, xs: seq<T>)
  {
    if sub == [] then true
    else if xs == [] then false
    else (sub[0] == xs[0] && Subsequence(sub[1..], xs[1..])) || Subsequence(sub, xs[1..])
  }

  /** `Filter` keeps the elements it keeps in their original relative order. */
  lemma {:induction false} FilterIsSubsequence<T>(xs: seq<T>, p: T -> bool)
    ensures Subsequence(Filter(xs, p), xs)
  {
    if xs != [] {
      FilterIsSubsequence(xs[1..], p);
      var r := Filter(xs, p);
      if p(xs[0]) {
        assert r[0] == xs[0] && r[1..] == Filter(xs[1..], p);
      } else {
        assert r == Filter(xs[1..], p);
        if r != [] {
          assert Subsequence(r, xs[1..]);
        }
      }
    }
  }

  /** A filter whose predicate accepts every element returns the sequence unchanged. */
  lemma {:induction false} FilterAll<T>(xs: seq<T>, p: T -> bool)
    requires forall i :: 0 <= i < |xs| ==> p(xs[i])
    ensures Filter(xs, p) == xs
  {
    if xs != [] {
      FilterAll(xs[1..], p);
    }
  }

  /** Filtering distributes over concatenation. */
  lemma {:induction false} FilterAppend<T>(xs: seq<T>, ys: seq<T>, p: T -> bool)
    ensures Filter(xs + ys, p) == Filter(xs, p) + Filter(ys, p)
  {
    if xs == [] {
      assert xs + ys == ys;
    } else {
      assert (xs + ys)[1..] == xs[1..] + ys;
      FilterAppend(xs[1..], ys, p);
    }
  }

  /** Filters with predicates that agree keep the same elements. */
  lemma {:induction false} FilterAgree<T>(xs: seq<T>, p: T -> bool, q: T -> bool)
    requires forall i :: 0 <= i < |xs| ==> p(xs[i]) == q(xs[i])
    ensures Filter(xs, p) == Filter(xs, q)
  {
    if xs != [] {
      FilterAgree(xs[1..], p, q);
    }
  }

  /** Two sequences of the same length on which `p` holds at the same indices have their
      first `p`-element at the same index. */
  lemma FirstIndexAgree<T>(xs: seq<T>, ys: seq<T>, p: T -> bool, i: nat, k: nat)
    requires |xs| == |ys| && i < |xs| && k < |ys|
    requires forall j :: 0 <= j < |xs| ==> p(xs[j]) == p(ys[j])
    requires p(xs[i]) && forall j :: 0 <= j < i ==> !p(xs[j])
    requires p(ys[k]) && forall j :: 0 <= j < k ==> !p(ys[j])
    ensures i == k
  {
    assert p(ys[i]) && p(xs[k]);
  }

  /** JavaScript's `xs.find(p)`: the first element that satisfies `p`, if any. */
  function FirstWith<T>(xs: seq<T>, p: T -> bool): (r: Option<T>)
    ensures r.None? <==> forall i :: 0 <= i < |xs| ==> !p(xs[i])
    ensures r.Some? ==> r.value in xs && p(r.value)
  {
    if xs == [] then None else if p(xs[0]) then Some(xs[0]) else FirstWith(xs[1..], p)
  }

  /** `FirstWith` returns the element at the first index that satisfies `p`. */
  lemma {:induction false} FirstWithIsFirst<T>(xs: seq<T>, p: T -> bool)
    requires FirstWith(xs, p).Some?
    ensures exists i :: 0 <= i < |xs| && xs[i] == FirstWith(xs, p).value && p(xs[i]) && (forall j :: 0 <= j < i ==> !p(xs[j]))
  {
    if !p(xs[0]) {
      FirstWithIsFirst(xs[1..], p);
      var i :| 0 <= i < |xs[1..]| && xs[1..][i] == FirstWith(xs[1..], p).value && p(xs[1..][i]) &&
        (forall j :: 0 <= j < i ==> !p(xs[1..][j]));
      assert xs[i + 1] == xs[1..][i];
      forall j | 0 <= j < i + 1 ensures !p(xs[j]) {
        if j > 0 { assert xs[j] == xs[1..][j - 1]; }
      }
    }
  }

  /** Searching a filtered sequence is searching the original one for the conjunction:
      `xs.filter(p)` followed by a loop that stops at the first `q` finds what a single
      search for `p && q` finds. */
  lemma {:induction false} FirstWithFilter<T>(xs: seq<T>, p: T -> bool, q: T -> bool, pq: T -> bool)
    requires forall x :: pq(x) == (p(x) && q(x))
    ensures FirstWith(Filter(xs, p), q) == FirstWith(xs, pq)
  {
    if xs != [] {
      FirstWithFilter(xs[1..], p, q, pq);
      if p(xs[0]) {
        assert Filter(xs, p) == [xs[0]] + Filter(xs[1..], p);
        assert (Filter(xs, p))[1..] == Filter(xs[1..], p);
      } else {
        assert Filter(xs, p) == Filter(xs[1..], p);
      }
    }
  }

  /** Sequences without repeated elements. */
  predicate NoDuplicates<T(==)>(xs: seq<T>)
  {
    forall i, j :: 0 <= i < j < |xs| ==> xs[i] != xs[j]
  }

  /** Filtering never introduces a repeated element. */
  lemma {:induction false} FilterNoDuplicates<T>(xs: seq<T>, p: T -> bool)
    requires NoDuplicates(xs)
    ensures NoDuplicates(Filter(xs, p))
  {
    if xs != [] {
      var tail := Filter(xs[1..], p);
      assert NoDuplicates(xs[1..]) by {
        forall i, j | 0 <= i < j < |xs| - 1 ensures xs[1..][i] != xs[1..][j] {
          assert xs[1..][i] == xs[i + 1] && xs[1..][j] == xs[j + 1];
        }
      }
      FilterNoDuplicates(xs[1..], p);
      if p(xs[0]) {
        assert xs[0] !in xs[1..];
        assert xs[0] !in tail;
        var r := [xs[0]] + tail;
        forall i, j | 0 <= i < j < |r| ensures r[i] != r[j] {
          if i == 0 {
            assert r[j] == tail[j - 1];
          } else {
            assert r[i] == tail[i - 1] && r[j] == tail[j - 1];
          }
        }
      } else {
        assert Filter(xs, p) == tail;
      }
    }
  }
}
