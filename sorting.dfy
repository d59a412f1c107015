/** The ordering that the application obtains from `Array.prototype.sort` with a comparator
    `(a, b) => key(a) - key(b)`: a stable sort by an integer key. The runtime's own sort is
    not visible; this insertion sort defines the result it must produce (sorted, a
    permutation of the input, equal keys in their original order). */
module Sorting {
  import opened Common


  ghost predicate SortedBy<T>(xs: seq<T>, key: T -> int)
  {
    forall i, j :: 0 <= i < j < |xs| ==> key(xs[i]) <= key(xs[j])
  }

  /** Inserts `x` after the leading elements whose key is not larger than its own. */
  function InsertBy<T>(x: T, xs: seq<T>, key: T -> int): (r: seq<T>)
    ensures |r| == |xs| + 1
    ensures multiset(r) == multiset(xs) + multiset{x}
  {
    if xs == [] then [x]
    else if key(x) < key(xs[0]) then [x] + xs
    else
      assert xs == [xs[0]] + xs[1..];
      [xs[0]] + InsertBy(x, xs[1..], key)
  }

  /** Inserting into a sorted sequence keeps it sorted. */
  lemma {:induction false} InsertBySorted<T>(x: T, xs: seq<T>, key: T -> int)
    requires SortedBy(xs, key)
    ensures SortedBy(InsertBy(x, xs, key), key)
  {
    if xs != [] && key(x) >= key(xs[0]) {
      var rest := InsertBy(x, xs[1..], key);
      InsertBySorted(x, xs[1..], key);
      forall i | 0 <= i < |rest| ensures key(xs[0]) <= key(rest[i]) {
        assert rest[i] in multiset(rest);
        if rest[i] != x {
          assert rest[i] in multiset(xs[1..]);
          var k :| 0 <= k < |xs[1..]| && xs[1..][k] == rest[i];
          assert xs[1..][k] == xs[k + 1];
        }
      }
      var r := [xs[0]] + rest;
      forall i, j | 0 <= i < j < |r| ensures key(r[i]) <= key(r[j]) {
        if i > 0 { assert r[i] == rest[i - 1]; }
        assert r[j] == rest[j - 1];
      }
    }
  }

  /** The stably sorted order of `xs`: each element is inserted, left to right,
      after the elements already placed with an equal key. */
  function SortBy<T>(xs: seq<T>, key: T -> int): (r: seq<T>)
    ensures SortedBy(r, key)
    ensures |r| == |xs|
  {
    if xs == [] then []
    else
      var init := xs[..|xs| - 1];
      assert xs == init + [xs[|xs| - 1]];
      InsertBySorted(xs[|xs| - 1], SortBy(init, key), key);
      InsertBy(xs[|xs| - 1], SortBy(init, key), key)
  }

  /** Sorting neither loses nor adds an element. */
  lemma {:induction false} SortByPermutes<T>(xs: seq<T>, key: T -> int)
    ensures multiset(SortBy(xs, key)) == multiset(xs)
  {
    if xs != [] {
      var init := xs[..|xs| - 1];
      SortByPermutes(init, key);
      assert xs == init + [xs[|xs| - 1]];
    }
  }

  /** Inserting an element whose key is not smaller than any key present appends it. */
  lemma {:induction false} InsertByLast<T>(x: T, xs: seq<T>, key: T -> int)
    requires forall i :: 0 <= i < |xs| ==> key(xs[i]) <= key(x)
    ensures InsertBy(x, xs, key) == xs + [x]
  {
    if xs != [] {
      InsertByLast(x, xs[1..], key);
      assert xs == [xs[0]] + xs[1..];
    }
  }

  /** Sorting an already sorted sequence leaves it unchanged (stability). */
  lemma {:induction false} SortBySorted<T>(xs: seq<T>, key: T -> int)
    requires SortedBy(xs, key)
    ensures SortBy(xs, key) == xs
  {
    if xs != [] {
      var n := |xs| - 1;
      var init := xs[..n];
      assert SortedBy(init, key);
      SortBySorted(init, key);
      assert SortBy(xs, key) == InsertBy(xs[n], init, key);
      InsertByLast(xs[n], init, key);
      assert init + [xs[n]] == xs;
    }
  }

  ghost predicate StrictlySortedBy<T>(xs: seq<T>, key: T -> int)
  {
    forall i, j :: 0 <= i < j < |xs| ==> key(xs[i]) < key(xs[j])
  }

  /** Inserting an element whose key is new into a strictly sorted sequence keeps it strictly
      sorted. */
  lemma {:induction false} InsertByStrict<T>(x: T, xs: seq<T>, key: T -> int)
    requires StrictlySortedBy(xs, key)
    requires forall i :: 0 <= i < |xs| ==> key(xs[i]) != key(x)
    ensures StrictlySortedBy(InsertBy(x, xs, key), key)
  {
    if xs != [] && key(x) >= key(xs[0]) {
      var rest := InsertBy(x, xs[1..], key);
      InsertByStrict(x, xs[1..], key);
      var r := InsertBy(x, xs, key);
      assert r == [xs[0]] + rest;
      forall j | 0 < j < |r| ensures key(r[0]) < key(r[j]) {
        assert r[j] == rest[j - 1];
        assert rest[j - 1] in multiset(rest);
        if rest[j - 1] != x {
          assert rest[j - 1] in multiset(xs[1..]);
          var k :| 0 <= k < |xs[1..]| && xs[1..][k] == rest[j - 1];
          assert xs[1..][k] == xs[k + 1];
        }
      }
    }
  }

  /** Sorting a sorted sequence with one element appended is inserting that element. */
  lemma SortByAppend<T>(xs: seq<T>, x: T, key: T -> int)
    requires SortedBy(xs, key)
    ensures SortBy(xs + [x], key) == InsertBy(x, xs, key)
  {
    assert (xs + [x])[..|xs|] == xs;
    SortBySorted(xs, key);
  }

  /** The position a left-to-right scan settles on when a later element replaces the current
      choice only if its key is strictly smaller: a least key, and the first of its kind. */
  function FirstMinIndex<T>(xs: seq<T>, key: T -> int): (r: nat)
    requires xs != []
    ensures r < |xs|
    ensures forall j :: 0 <= j < |xs| ==> key(xs[r]) <= key(xs[j])
    ensures forall j :: 0 <= j < r ==> key(xs[r]) < key(xs[j])
  {
    if |xs| == 1 then 0
    else
      var n := |xs| - 1;
      var p := FirstMinIndex(xs[..n], key);
      assert xs[..n][p] == xs[p];
      if key(xs[n]) < key(xs[p]) then n else p
  }

  /** The element that scan settles on, if any. */
  function FirstMinBy<T>(xs: seq<T>, key: T -> int): (r: Option<T>)
    ensures r.None? <==> xs == []
  {
    if xs == [] then None else Some(xs[FirstMinIndex(xs, key)])
  }

  /** One more element replaces the choice only when its key is strictly smaller. */
  lemma FirstMinBySnoc<T>(xs: seq<T>, x: T, key: T -> int)
    ensures FirstMinBy(xs + [x], key) ==
      if xs == [] || key(x) < key(FirstMinBy(xs, key).value) then Some(x) else FirstMinBy(xs, key)
  {
    var ys := xs + [x];
    assert ys[..|xs|] == xs;
    if xs != [] {
      var p := FirstMinIndex(xs, key);
      assert ys[p] == xs[p];
    }
  }
}
