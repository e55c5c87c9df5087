/**
 * Times of day and their zero-padded "HH:MM" text form.
 *
 * The availability code keeps times as "HH:MM" strings and compares them with
 * JavaScript's string operators; this model keeps them as minutes since
 * midnight and proves that the string comparisons it replaces agree with the
 * numeric ones (`FormatOrder`, `FormatInjective`).
 */
module TimeGrid {
  import opened Wrappers

  /** Minutes since midnight of a well-formed "HH:MM" string (hours 00..23, minutes 00..59). */
  type Minutes = m: int | 0 <= m < 1440

  /** The 30-minute grid used by every time picker and slot loop. */
  const GridStep: int := 30

  predicate OnGrid(t: int) {
    t % GridStep == 0
  }

  function DigitChar(d: int): (c: char)
    requires 0 <= d <= 9
    ensures '0' <= c <= '9'
  {
    ('0' as int + d) as char
  }

  predicate IsDigit(c: char) {
    '0' <= c <= '9'
  }

  function DigitValue(c: char): (d: int)
    requires IsDigit(c)
    ensures 0 <= d <= 9 && DigitChar(d) == c
  {
    c as int - '0' as int
  }

  /** `n.toString().padStart(2, '0')` for a number below 100. */
  function Pad2(n: int): (s: string)
    requires 0 <= n <= 99
    ensures |s| == 2 && IsDigit(s[0]) && IsDigit(s[1])
  {
    [DigitChar(n / 10), DigitChar(n % 10)]
  }

  /** The "HH:MM" text of a time of day. */
  function Format(t: Minutes): (s: string)
    ensures |s| == 5 && s[2] == ':'
    ensures IsDigit(s[0]) && IsDigit(s[1]) && IsDigit(s[3]) && IsDigit(s[4])
  {
    Pad2(t / 60) + ":" + Pad2(t % 60)
  }

  /** Reads a well-formed "HH:MM" string; anything else is `None`. */
  function Parse(s: string): (r: Option<Minutes>)
    ensures r.Some? ==> |s| == 5 && s[2] == ':'
  {
    if |s| == 5 && s[2] == ':' && IsDigit(s[0]) && IsDigit(s[1]) && IsDigit(s[3]) && IsDigit(s[4]) then
      var h := DigitValue(s[0]) * 10 + DigitValue(s[1]);
      var m := DigitValue(s[3]) * 10 + DigitValue(s[4]);
      if h < 24 && m < 60 then Some(h * 60 + m) else None
    else None
  }

  /** Decoding the text of a time gives the time back. */
  lemma FormatThenParse(t: Minutes)
    ensures Parse(Format(t)) == Some(t)
  {
    var s := Format(t);
    assert DigitValue(s[0]) == t / 60 / 10 && DigitValue(s[1]) == t / 60 % 10;
    assert DigitValue(s[3]) == t % 60 / 10 && DigitValue(s[4]) == t % 60 % 10;
  }

  /** Every string that decodes is the text of what it decodes to: the codec has one spelling per time. */
  lemma ParseThenFormat(s: string)
    requires Parse(s).Some?
    ensures Format(Parse(s).value) == s
  {
    var t := Parse(s).value;
    var h := DigitValue(s[0]) * 10 + DigitValue(s[1]);
    var m := DigitValue(s[3]) * 10 + DigitValue(s[4]);
    assert t == h * 60 + m;
    assert t / 60 == h && t % 60 == m;
    assert Format(t) == [s[0], s[1], ':', s[3], s[4]];
  }

  /** Two times have the same text only when they are equal, so `===` on the strings is `==` on the times. */
  lemma FormatInjective(a: Minutes, b: Minutes)
    ensures Format(a) == Format(b) <==> a == b
  {
    if Format(a) == Format(b) {
      FormatThenParse(a);
      FormatThenParse(b);
    }
  }

  /** JavaScript's `a < b` on strings: lexicographic on characters, a proper prefix being smaller. */
  predicate LexLess(a: string, b: string)
    decreases |a|
  {
    |b| > 0 && (|a| == 0 || a[0] < b[0] || (a[0] == b[0] && LexLess(a[1..], b[1..])))
  }

  lemma DigitCharOrder(x: int, y: int)
    requires 0 <= x <= 9 && 0 <= y <= 9
    ensures DigitChar(x) < DigitChar(y) <==> x < y
    ensures DigitChar(x) == DigitChar(y) <==> x == y
  {
  }

  /** Lexicographic order on two-digit pads is numeric order. */
  lemma Pad2Order(x: int, y: int, rest1: string, rest2: string)
    requires 0 <= x <= 99 && 0 <= y <= 99
    ensures x < y ==> LexLess(Pad2(x) + rest1, Pad2(y) + rest2)
    ensures x > y ==> !LexLess(Pad2(x) + rest1, Pad2(y) + rest2)
    ensures x == y ==> (LexLess(Pad2(x) + rest1, Pad2(y) + rest2) <==> LexLess(rest1, rest2))
  {
    var a, b := Pad2(x) + rest1, Pad2(y) + rest2;
    DigitCharOrder(x / 10, y / 10);
    DigitCharOrder(x % 10, y % 10);
    assert a[1..] == [DigitChar(x % 10)] + rest1;
    assert b[1..] == [DigitChar(y % 10)] + rest2;
    assert a[1..][1..] == rest1 && b[1..][1..] == rest2;
  }

  /**
   * The comparisons `timeStr > brk.start`, `next !== expectedNext` and the
   * default `sort()` of the availability code work on "HH:MM" strings; for
   * well-formed times they agree with numeric comparison.
   */
  lemma FormatOrder(a: Minutes, b: Minutes)
    ensures LexLess(Format(a), Format(b)) <==> a < b
  {
    var ra, rb := ":" + Pad2(a % 60), ":" + Pad2(b % 60);
    assert Format(a) == Pad2(a / 60) + ra && Format(b) == Pad2(b / 60) + rb;
    Pad2Order(a / 60, b / 60, ra, rb);
    if a / 60 == b / 60 {
      assert ra[1..] == Pad2(a % 60) + [] && rb[1..] == Pad2(b % 60) + [];
      Pad2Order(a % 60, b % 60, [], []);
    }
  }

  /**
   * The next time the availability code expects after `t`: ":30" of the
   * same hour unless the minutes are 30, then ":00" of the next hour.
   * Off the grid this can move backwards (09:45 gives 09:30).
   */
  function Step(t: int): int
    requires 0 <= t
  {
    if t % 60 == 30 then (t / 60 + 1) * 60 else t / 60 * 60 + 30
  }

  /** On the grid, `Step` is exactly thirty minutes later. */
  lemma StepOnGrid(t: int)
    requires 0 <= t && OnGrid(t)
    ensures Step(t) == t + GridStep
  {
  }

  /** A clock reading `hour:minute` is the time `hour * 60 + minute`, and the next reading is its `Step`. */
  lemma ClockStep(hour: int, minute: int)
    requires 0 <= hour && 0 <= minute < 60
    ensures (hour * 60 + minute) / 60 == hour && (hour * 60 + minute) % 60 == minute
    ensures Step(hour * 60 + minute) == if minute == 30 then (hour + 1) * 60 else hour * 60 + 30
  {
  }

  /** Two distinct grid times are at least one step apart. */
  lemma GridGap(a: int, b: int)
    requires OnGrid(a) && OnGrid(b) && a < b
    ensures a + GridStep <= b
  {
    assert a == GridStep * (a / GridStep);
    assert b == GridStep * (b / GridStep);
    assert a / GridStep < b / GridStep;
  }

  /** Decimal text of a natural number (`String(n)` / template interpolation). */
  function NatToString(n: nat): (s: string)
    ensures |s| > 0 && forall i :: 0 <= i < |s| ==> IsDigit(s[i])
    decreases n
  {
    if n < 10 then [DigitChar(n)] else NatToString(n / 10) + [DigitChar(n % 10)]
  }

  /** The value of a string of decimal digits (the empty string reads as 0, as `Number('')` does). */
  function ParseNat(s: string): nat
    requires forall i :: 0 <= i < |s| ==> IsDigit(s[i])
    decreases |s|
  {
    if |s| == 0 then 0 else ParseNat(s[..|s| - 1]) * 10 + DigitValue(s[|s| - 1])
  }

  lemma {:induction false} NatRoundTrip(n: nat)
    ensures ParseNat(NatToString(n)) == n
    decreases n
  {
    var s := NatToString(n);
    if n >= 10 {
      NatRoundTrip(n / 10);
      assert s[..|s| - 1] == NatToString(n / 10);
    }
  }
}
