/**
 * The wall clock, supplied by the caller as a broken-down local time, and the
 * `strftime` / `put_time` fields the modelled code prints from it.
 */
module WallClock {
  import opened PyText
  import opened Wrappers
  import opened PyList

  /** A local time as `localtime` / `datetime.now()` break it down, to the millisecond. */
  datatype DateTime = DateTime(year: nat, month: nat, day: nat, hour: nat, minute: nat, second: nat, millis: nat) {
    predicate Valid() {
      && 1 <= year <= 9999
      && 1 <= month <= 12 && 1 <= day <= 31
      && hour < 24 && minute < 60 && second < 60 && millis < 1000
    }

    /** Microseconds since midnight. */
    function MicrosOfDay(): (us: nat)
      requires Valid()
      ensures us < 24 * 3600 * 1_000_000
    {
      ((hour * 60 + minute) * 60 + second) * 1_000_000 + millis * 1000
    }
  }

  function Pow10(w: nat): (p: nat)
    ensures p >= 1
  {
    if w == 0 then 1 else 10 * Pow10(w - 1)
  }

  /** `n` in decimal, zero-padded on the left to at least `w` digits (`%0wd`). */
  function Pad(n: nat, w: nat): (s: string)
    ensures AllDigits(s) && |s| >= w
  {
    var d := NatToString(n);
    if |d| >= w then d else Filled('0', w - |d|) + d
  }

  /** `%Y`: the year without padding. */
  function Year(t: DateTime): string {
    NatToString(t.year)
  }

  /** `%Y-%m-%d`. */
  function IsoDate(t: DateTime): string {
    Year(t) + "-" + Pad(t.month, 2) + "-" + Pad(t.day, 2)
  }

  /** `%H:%M:%S`. */
  function IsoTime(t: DateTime): string {
    Pad(t.hour, 2) + ":" + Pad(t.minute, 2) + ":" + Pad(t.second, 2)
  }

  /** `%Y%m%d`. */
  function CompactDate(t: DateTime): string {
    Year(t) + Pad(t.month, 2) + Pad(t.day, 2)
  }

  lemma {:induction false} NatToStringLength(n: nat, w: nat)
    requires w >= 1 && n < Pow10(w)
    ensures |NatToString(n)| <= w
  {
    if n >= 10 {
      NatToStringLength(n / 10, w - 1);
    }
  }

  /** A value of at least 10^w has more than `w` digits. */
  lemma {:induction false} NatToStringAtLeast(n: nat, w: nat)
    requires n >= Pow10(w)
    ensures |NatToString(n)| > w
  {
    if w > 0 {
      NatToStringAtLeast(n / 10, w - 1);
    }
  }

  /** A padded field of a value below 10^w is exactly `w` digits and reads back as the value. */
  lemma PadValue(n: nat, w: nat)
    requires w >= 1 && n < Pow10(w)
    ensures |Pad(n, w)| == w
    ensures DigitsValue(Pad(n, w)) == n
  {
    NatToStringLength(n, w);
    var d := NatToString(n);
    if |d| < w {
      LeadingZeros(w - |d|, d);
    }
  }

  /** Leading zeros do not change a decimal value. */
  lemma {:induction false} LeadingZeros(k: nat, d: string)
    requires AllDigits(d)
    ensures AllDigits(Filled('0', k) + d)
    ensures DigitsValue(Filled('0', k) + d) == DigitsValue(d)
  {
    var z := Filled('0', k);
    if d == [] {
      assert z + d == z;
      ZerosValue(k);
    } else {
      var t := z + d;
      var front := d[..|d| - 1];
      assert t[..|t| - 1] == z + front;
      LeadingZeros(k, front);
    }
  }

  lemma {:induction false} ZerosValue(k: nat)
    ensures DigitsValue(Filled('0', k)) == 0
  {
    if k > 0 {
      assert Filled('0', k)[..k - 1] == Filled('0', k - 1);
      ZerosValue(k - 1);
    }
  }

  /** `%Y-%m-%d %H:%M:%S`. */
  function ClockText(t: DateTime): string {
    IsoDate(t) + " " + IsoTime(t)
  }

  /** The decimal number written in `s[i..j]`, None where that slice is not all digits. */
  function DecimalAt(s: string, i: nat, j: nat): Option<nat> {
    if i <= j <= |s| && AllDigits(s[i..j]) then Some(DigitsValue(s[i..j])) else None
  }

  /**
   * The printed date and time read back: after the year come `-`, two month digits, `-`,
   * two day digits, a space, then hour, minute and second as two digits each, split by `:`.
   */
  lemma ClockTextFields(t: DateTime)
    requires t.Valid()
    ensures var s := ClockText(t); var y := |Year(t)|;
      && |s| == y + 15 && DecimalAt(s, 0, y) == Some(t.year)
      && s[y] == '-' && s[y + 3] == '-' && s[y + 6] == ' ' && s[y + 9] == ':' && s[y + 12] == ':'
      && DecimalAt(s, y + 1, y + 3) == Some(t.month) && DecimalAt(s, y + 4, y + 6) == Some(t.day)
      && DecimalAt(s, y + 7, y + 9) == Some(t.hour) && DecimalAt(s, y + 10, y + 12) == Some(t.minute)
      && DecimalAt(s, y + 13, y + 15) == Some(t.second)
  {
    var d := IsoDate(t);
    var c := IsoTime(t);
    var s := ClockText(t);
    var y := |Year(t)|;
    IsoDateFields(t);
    IsoTimeFields(t);
    DecimalAtAppend(d + " ", c, 0, y);
    DecimalAtAppend(d + " ", c, y + 1, y + 3);
    DecimalAtAppend(d + " ", c, y + 4, y + 6);
    DecimalAtAppend(d, " ", 0, y);
    DecimalAtAppend(d, " ", y + 1, y + 3);
    DecimalAtAppend(d, " ", y + 4, y + 6);
    DecimalAtPrepend(d + " ", c, 0, 2, y + 7, y + 9);
    DecimalAtPrepend(d + " ", c, 3, 5, y + 10, y + 12);
    DecimalAtPrepend(d + " ", c, 6, 8, y + 13, y + 15);
  }

  /** `%Y-%m-%d` read back. */
  lemma IsoDateFields(t: DateTime)
    requires t.Valid()
    ensures var d := IsoDate(t); var y := |Year(t)|;
      && |d| == y + 6 && DecimalAt(d, 0, y) == Some(t.year) && d[y] == '-' && d[y + 3] == '-'
      && DecimalAt(d, y + 1, y + 3) == Some(t.month) && DecimalAt(d, y + 4, y + 6) == Some(t.day)
  {
    var yr, m, d := Year(t), Pad(t.month, 2), Pad(t.day, 2);
    var y := |yr|;
    PadTwo(t.month);
    PadTwo(t.day);
    var z := yr + "-" + m;
    var w := z + "-";
    DecimalAtPrepend(w, d, 0, 2, y + 4, y + 6);
    DecimalAtAppend(w, d, y + 1, y + 3);
    DecimalAtAppend(z, "-", y + 1, y + 3);
    DecimalAtPrepend(yr + "-", m, 0, 2, y + 1, y + 3);
    DecimalAtAppend(w, d, 0, y);
    DecimalAtAppend(z, "-", 0, y);
    DecimalAtAppend(yr + "-", m, 0, y);
    DecimalAtAppend(yr, "-", 0, y);
    assert yr[0..y] == yr;
  }

  /** `%H:%M:%S` read back. */
  lemma IsoTimeFields(t: DateTime)
    requires t.Valid()
    ensures var c := IsoTime(t);
      && |c| == 8 && c[2] == ':' && c[5] == ':'
      && DecimalAt(c, 0, 2) == Some(t.hour) && DecimalAt(c, 3, 5) == Some(t.minute)
      && DecimalAt(c, 6, 8) == Some(t.second)
  {
    var h, m, sec := Pad(t.hour, 2), Pad(t.minute, 2), Pad(t.second, 2);
    PadTwo(t.hour);
    PadTwo(t.minute);
    PadTwo(t.second);
    var z := h + ":" + m;
    var y := z + ":";
    DecimalAtPrepend(y, sec, 0, 2, 6, 8);
    DecimalAtAppend(y, sec, 3, 5);
    DecimalAtAppend(z, ":", 3, 5);
    DecimalAtPrepend(h + ":", m, 0, 2, 3, 5);
    DecimalAtAppend(y, sec, 0, 2);
    DecimalAtAppend(z, ":", 0, 2);
    DecimalAtAppend(h + ":", m, 0, 2);
    DecimalAtAppend(h, ":", 0, 2);
  }

  /** A value below 100 pads to two digits that read back as it. */
  lemma PadTwo(n: nat)
    requires n < 100
    ensures |Pad(n, 2)| == 2 && DecimalAt(Pad(n, 2), 0, 2) == Some(n)
  {
    assert Pow10(2) == 100 by {
      assert Pow10(1) == 10;
    }
    PadValue(n, 2);
    assert Pad(n, 2)[0..2] == Pad(n, 2);
  }

  /** Appending text does not change a number found before it. */
  lemma DecimalAtAppend(a: string, b: string, i: nat, j: nat)
    requires i <= j <= |a|
    ensures DecimalAt(a + b, i, j) == DecimalAt(a, i, j)
  {
    assert (a + b)[i..j] == a[i..j];
  }

  /** Prepending text shifts a number by the length of that text. */
  lemma DecimalAtPrepend(a: string, b: string, i: nat, j: nat, i': nat, j': nat)
    requires i <= j <= |b| && i' == |a| + i && j' == |a| + j
    ensures DecimalAt(a + b, i', j') == DecimalAt(b, i, j)
  {
    assert (a + b)[i'..j'] == b[i..j];
  }
}
