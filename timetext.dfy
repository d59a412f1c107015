/** The "HH:MM" text form in which the schedule editors store times of day
    (`getHours().toString().padStart(2, '0')` and the same for minutes, joined by ':').
    The lemmas here show that this text form and the `Time` value determine each other
    and that comparing the texts as strings (what `Array.prototype.sort()` and
    `localeCompare` do) orders them by minute of day, so the rest of the model compares
    `Time` values where the application compares strings. */
module TimeText {
  import opened Common

  predicate IsDigit(c: char) { '0' <= c <= '9' }

  function DigitValue(c: char): (v: int)
    requires IsDigit(c)
    ensures 0 <= v < 10
  {
    c as int - '0' as int
  }

  function Digit(d: int): (c: char)
    requires 0 <= d < 10
    ensures IsDigit(c) && DigitValue(c) == d
  {
    ('0' as int + d) as char
  }

  /** `n.toString().padStart(2, '0')` for a number below one hundred. */
  function Pad2(n: int): (s: string)
    requires 0 <= n < 100
    ensures |s| == 2 && IsDigit(s[0]) && IsDigit(s[1])
    ensures 10 * DigitValue(s[0]) + DigitValue(s[1]) == n
  {
    [Digit(n / 10), Digit(n % 10)]
  }

  /** The text that `handleAddSchedule` builds from a picked time. */
  function Format(t: Time): (s: string)
    ensures |s| == 5 && s[2] == ':'
    ensures IsDigit(s[0]) && IsDigit(s[1]) && IsDigit(s[3]) && IsDigit(s[4])
  {
    Pad2(t.hour) + ":" + Pad2(t.minute)
  }

  /** Reads "HH:MM" text back into a time, as `time.split(':').map(Number)` does for
      text of that shape; any other text is rejected. */
  function Parse(s: string): (r: Option<Time>)
    ensures r.Some? ==> |s| == 5 && s[2] == ':'
  {
    if |s| == 5 && s[2] == ':' && IsDigit(s[0]) && IsDigit(s[1]) && IsDigit(s[3]) && IsDigit(s[4]) then
      var h := 10 * DigitValue(s[0]) + DigitValue(s[1]);
      var m := 10 * DigitValue(s[3]) + DigitValue(s[4]);
      if h < 24 && m < 60 then Some(Time(h, m)) else None
    else None
  }

  /** Reading back what was written gives the picked time. */
  lemma ParseFormat(t: Time)
    ensures Parse(Format(t)) == Some(t)
  {
    var s := Format(t);
    assert s[0] == Pad2(t.hour)[0] && s[1] == Pad2(t.hour)[1];
    assert s[3] == Pad2(t.minute)[0] && s[4] == Pad2(t.minute)[1];
  }

  /** Every text that reads as a time is the formatted text of that time. */
  lemma FormatParse(s: string)
    requires Parse(s).Some?
    ensures Format(Parse(s).value) == s
  {
    var t := Parse(s).value;
    var f := Format(t);
    assert t.hour == 10 * DigitValue(s[0]) + DigitValue(s[1]);
    assert t.minute == 10 * DigitValue(s[3]) + DigitValue(s[4]);
    assert f[0] == Digit(t.hour / 10) && f[1] == Digit(t.hour % 10);
    assert f[3] == Digit(t.minute / 10) && f[4] == Digit(t.minute % 10);
    assert forall i :: 0 <= i < 5 ==> f[i] == s[i];
  }

  /** Two times with the same text are the same time, so `schedule.includes(text)`
      is membership of the time. */
  lemma FormatInjective(a: Time, b: Time)
    requires Format(a) == Format(b)
    ensures a == b
  {
    ParseFormat(a);
    ParseFormat(b);
  }

  /** JavaScript's `<` on strings: code-unit order, a proper prefix first. */
  predicate LexLess(a: string, b: string)
  {
    if a == [] then b != []
    else if b == [] then false
    else if a[0] != b[0] then a[0] < b[0]
    else LexLess(a[1..], b[1..])
  }

  lemma TwoDigitOrder(a: string, b: string)
    requires |a| == 2 && |b| == 2
    requires IsDigit(a[0]) && IsDigit(a[1]) && IsDigit(b[0]) && IsDigit(b[1])
    ensures (a[0] < b[0] || (a[0] == b[0] && a[1] < b[1])) <==>
      10 * DigitValue(a[0]) + DigitValue(a[1]) < 10 * DigitValue(b[0]) + DigitValue(b[1])
  {
  }

  /** String order on formatted times is chronological order: sorting the stored texts
      with the default `sort()`, or with `localeCompare` (all characters are ASCII digits
      and one ':' in the same place), sorts the times by minute of day. */
  lemma FormatOrder(a: Time, b: Time)
    ensures LexLess(Format(a), Format(b)) <==> MinuteOfDay(a) < MinuteOfDay(b)
  {
    var fa, fb := Format(a), Format(b);
    assert a.hour == b.hour ==> (MinuteOfDay(a) < MinuteOfDay(b) <==> a.minute < b.minute);
    assert a.hour != b.hour ==> (MinuteOfDay(a) < MinuteOfDay(b) <==> a.hour < b.hour);
    TwoDigitOrder(Pad2(a.hour), Pad2(b.hour));
    TwoDigitOrder(Pad2(a.minute), Pad2(b.minute));
    assert fa[..2] == Pad2(a.hour) && fb[..2] == Pad2(b.hour);
    assert fa[3..] == Pad2(a.minute) && fb[3..] == Pad2(b.minute);
    assert fa[1..][1..][1..] == fa[3..] && fb[1..][1..][1..] == fb[3..];
    assert fa[3..][1..][1..] == [] && fb[3..][1..][1..] == [];
    if fa[0] != fb[0] {
    } else if fa[1] != fb[1] {
      assert LexLess(fa, fb) == LexLess(fa[1..], fb[1..]);
    } else {
      assert a.hour == b.hour;
      assert fa[2] == fb[2];
      assert LexLess(fa, fb) == LexLess(fa[1..], fb[1..]);
      assert LexLess(fa[1..], fb[1..]) == LexLess(fa[1..][1..], fb[1..][1..]);
      assert LexLess(fa[1..][1..], fb[1..][1..]) == LexLess(fa[3..], fb[3..]);
      var ma, mb := fa[3..], fb[3..];
      if ma[0] == mb[0] {
        assert LexLess(ma, mb) == LexLess(ma[1..], mb[1..]);
        assert ma[1..][1..] == [] && mb[1..][1..] == [];
      }
    }
  }
}
