/**
  Number-to-text rendering shared by both variants of the meter: JavaScript's
  `Math.round`, `String(n)` and `padStart(2, '0')`, the "N秒" speaking-time
  label produced by `formatTime`, and the "mm:ss" meeting clock produced by
  `updateMeetingTimer`. Each rendering comes with a decoder that reads the
  text back, and the round trip is proved.
*/
module TextFormat {
  import opened Options

  const MsPerSecond: int := 1000
  const MsPerMinute: int := 60000

  /** The unit appended by `formatTime` (the Japanese word for "seconds"). */
  const SecondsSuffix: char := '秒'

  // ---------------------------------------------------------------------------
  // Math.round
  // ---------------------------------------------------------------------------

  /** JavaScript's `Math.round`: the nearest integer, a tie rounding toward +infinity. */
  function RoundHalfUp(x: real): (n: int)
    ensures n as real - 0.5 <= x < n as real + 0.5
  {
    (x + 0.5).Floor
  }

  /** Exactly one integer lies in the half-open window that `RoundHalfUp` promises. */
  lemma RoundHalfUpUnique(x: real, m: int)
    requires m as real - 0.5 <= x < m as real + 0.5
    ensures m == RoundHalfUp(x)
  {
  }

  // ---------------------------------------------------------------------------
  // Decimal digits: String(n) and its inverse
  // ---------------------------------------------------------------------------

  predicate IsDigit(c: char) {
    '0' <= c <= '9'
  }

  predicate AllDigits(s: string) {
    forall i :: 0 <= i < |s| ==> IsDigit(s[i])
  }

  function DigitValue(c: char): (d: nat)
    requires IsDigit(c)
    ensures d < 10
  {
    c as int - '0' as int
  }

  function DigitChar(d: nat): (c: char)
    requires d < 10
    ensures IsDigit(c) && DigitValue(c) == d
  {
    ('0' as int + d) as char
  }

  /** Decimal digits of a natural number, most significant first, without leading zeros. */
  function NatDigits(n: nat): (s: string)
    ensures 1 <= |s| && AllDigits(s)
    ensures |s| == 1 <==> n < 10
    ensures n < 100 ==> |s| <= 2
    ensures |s| > 1 ==> s[0] != '0'
    decreases n
  {
    if n < 10 then [DigitChar(n)] else NatDigits(n / 10) + [DigitChar(n % 10)]
  }

  /** The number a digit string denotes; the empty string denotes 0. */
  function DigitsValue(s: string): nat
    requires AllDigits(s)
    decreases |s|
  {
    if |s| == 0 then 0 else DigitsValue(s[..|s| - 1]) * 10 + DigitValue(s[|s| - 1])
  }

  lemma {:induction false} DigitsRoundTrip(n: nat)
    ensures DigitsValue(NatDigits(n)) == n
    decreases n
  {
    if n >= 10 {
      var s := NatDigits(n);
      assert s[..|s| - 1] == NatDigits(n / 10);
      DigitsRoundTrip(n / 10);
    }
  }

  /** JavaScript's `String(i)` for an integer. */
  function IntText(i: int): (s: string)
    ensures 1 <= |s|
    ensures i >= 0 ==> AllDigits(s)
    ensures i < 0 ==> s[0] == '-' && AllDigits(s[1..])
  {
    if i < 0 then "-" + NatDigits(-i) else NatDigits(i)
  }

  /** Reads back an optionally negative decimal integer; `None` when the text is not one. */
  function ParseInt(s: string): Option<int> {
    if |s| >= 2 && s[0] == '-' && AllDigits(s[1..]) then
      var v: int := DigitsValue(s[1..]);
      Some(-v)
    else if |s| >= 1 && AllDigits(s) then
      var v: int := DigitsValue(s);
      Some(v)
    else None
  }

  lemma IntTextRoundTrip(i: int)
    ensures ParseInt(IntText(i)) == Some(i)
  {
    if i < 0 {
      var d := NatDigits(-i);
      var s := "-" + d;
      assert s == IntText(i);
      assert s[1..] == d;
      DigitsRoundTrip(-i);
      assert ParseInt(s) == Some(-(DigitsValue(d) as int));
    } else {
      var s := NatDigits(i);
      assert IsDigit(s[0]);
      DigitsRoundTrip(i);
    }
  }

  // ---------------------------------------------------------------------------
  // padStart
  // ---------------------------------------------------------------------------

  /** JavaScript's `s.padStart(width, fill)` with a one-character fill. */
  function PadStart(s: string, width: nat, fill: char): (r: string)
    ensures |r| == if |s| >= width then |s| else width
    ensures r[|r| - |s|..] == s
    ensures forall i :: 0 <= i < |r| - |s| ==> r[i] == fill
  {
    if |s| >= width then s else seq(width - |s|, _ => fill) + s
  }

  lemma {:induction false} LeadingZeroValue(s: string)
    requires AllDigits(s)
    ensures AllDigits("0" + s) && DigitsValue("0" + s) == DigitsValue(s)
    decreases |s|
  {
    if |s| > 0 {
      var t := "0" + s;
      assert t[..|t| - 1] == "0" + s[..|s| - 1];
      LeadingZeroValue(s[..|s| - 1]);
    }
  }

  /** Zero padding never changes the number a digit string denotes. */
  lemma {:induction false} ZeroPaddedValue(s: string, width: nat)
    requires AllDigits(s)
    ensures AllDigits(PadStart(s, width, '0'))
    ensures DigitsValue(PadStart(s, width, '0')) == DigitsValue(s)
    decreases width
  {
    if |s| < width {
      var q := PadStart(s, width - 1, '0');
      ZeroPaddedValue(s, width - 1);
      assert PadStart(s, width, '0') == "0" + q;
      LeadingZeroValue(q);
    }
  }

  // ---------------------------------------------------------------------------
  // formatTime: milliseconds -> "N秒"
  // ---------------------------------------------------------------------------

  /** Reads back the whole seconds shown by a "N秒" label. */
  function ParseSecondsLabel(t: string): Option<int> {
    if |t| >= 1 && t[|t| - 1] == SecondsSuffix then ParseInt(t[..|t| - 1]) else None
  }

  /** `formatTime`: the milliseconds rounded to the nearest whole second, followed by "秒". */
  function FormatTime(ms: real): (t: string)
    ensures ParseSecondsLabel(t).Some?
    ensures var n := ParseSecondsLabel(t).value;
      n as real - 0.5 <= ms / 1000.0 < n as real + 0.5
  {
    var n := RoundHalfUp(ms / 1000.0);
    var t := IntText(n) + [SecondsSuffix];
    assert t[..|t| - 1] == IntText(n);
    IntTextRoundTrip(n);
    t
  }

  // ---------------------------------------------------------------------------
  // updateMeetingTimer: elapsed milliseconds -> "mm:ss"
  // ---------------------------------------------------------------------------

  /** JavaScript's `%` on integers: the remainder takes the sign of the dividend. */
  function JsRemainder(a: int, b: int): (r: int)
    requires b > 0
    ensures a >= 0 ==> 0 <= r < b
    ensures a < 0 ==> -b < r <= 0
    ensures a == b * (if a >= 0 then a / b else -((-a) / b)) + r
  {
    if a >= 0 then a % b
    else
      assert -a == b * ((-a) / b) + (-a) % b;
      -((-a) % b)
  }

  datatype Clock = Clock(minutes: int, seconds: int)

  /**
    The two numbers of the meeting clock: `Math.floor(elapsed / 60000)` and
    `Math.floor((elapsed % 60000) / 1000)`. For a divisor above zero Dafny's `/`
    on integers is the floor of the exact quotient, as `Math.floor` is.
  */
  function ClockFields(elapsed: int): Clock {
    Clock(elapsed / MsPerMinute, JsRemainder(elapsed, MsPerMinute) / MsPerSecond)
  }

  lemma DivisionUnique(a: int, b: int, q: int, t: int)
    requires b > 0 && a == b * q + t && 0 <= t < b
    ensures a / b == q
  {
    var d := q - a / b;
    assert b * d == a % b - t;
  }

  /** For a non-negative elapsed time the clock shows the whole seconds elapsed, split into minutes and seconds < 60. */
  lemma ClockCountsWholeSeconds(elapsed: int)
    requires elapsed >= 0
    ensures var c := ClockFields(elapsed);
      && c.minutes >= 0
      && 0 <= c.seconds < 60
      && c.minutes * 60 + c.seconds == elapsed / MsPerSecond
  {
    var q := elapsed / MsPerMinute;
    var r := elapsed % MsPerMinute;
    var s := r / MsPerSecond;
    var t := r % MsPerSecond;
    assert elapsed == MsPerMinute * q + r;
    assert r == MsPerSecond * s + t;
    assert elapsed == MsPerSecond * (q * 60 + s) + t;
    DivisionUnique(elapsed, MsPerSecond, q * 60 + s, t);
  }

  /** The clock text: both fields through `String(n).padStart(2, '0')`, joined by ':'. */
  function ClockText(elapsed: int): string {
    var c := ClockFields(elapsed);
    PadStart(IntText(c.minutes), 2, '0') + ":" + PadStart(IntText(c.seconds), 2, '0')
  }

  /** Index of the first ':' in t, or |t| when there is none. */
  function ColonIndex(t: string): (k: nat)
    ensures k <= |t|
    ensures k < |t| ==> t[k] == ':'
    ensures forall j :: 0 <= j < k ==> t[j] != ':'
    decreases |t|
  {
    if |t| == 0 || t[0] == ':' then 0 else 1 + ColonIndex(t[1..])
  }

  /** Reads back the minutes and seconds of a clock text made of two digit fields. */
  function DecodeClock(t: string): Option<Clock> {
    var k := ColonIndex(t);
    if k < |t| && 1 <= k && AllDigits(t[..k]) && k + 1 < |t| && AllDigits(t[k + 1..])
    then Some(Clock(DigitsValue(t[..k]), DigitsValue(t[k + 1..])))
    else None
  }

  /** Two digit fields joined by ':' split back at the colon. */
  lemma SplitClockText(mm: string, ss: string)
    requires 1 <= |mm| && AllDigits(mm)
    requires 1 <= |ss| && AllDigits(ss)
    ensures ColonIndex(mm + ":" + ss) == |mm|
    ensures DecodeClock(mm + ":" + ss) == Some(Clock(DigitsValue(mm), DigitsValue(ss)))
  {
    var t := mm + ":" + ss;
    assert forall j :: 0 <= j < |mm| ==> t[j] == mm[j];
    assert t[|mm|] == ':';
    var k := ColonIndex(t);
    assert k == |mm|;
    assert t[..k] == mm;
    assert t[k + 1..] == ss;
  }

  /**
    Round trip of the meeting clock: for a non-negative elapsed time the text
    decodes to the two clock fields; the minutes field has at least two digits
    and the seconds field exactly two, as `padStart(2, '0')` pads them.
  */
  lemma ClockRoundTrip(elapsed: int)
    requires elapsed >= 0
    ensures DecodeClock(ClockText(elapsed)) == Some(ClockFields(elapsed))
    ensures ColonIndex(ClockText(elapsed)) >= 2
    ensures var t := ClockText(elapsed); |t| - ColonIndex(t) - 1 == 2
  {
    var c := ClockFields(elapsed);
    ClockCountsWholeSeconds(elapsed);
    var mm := PadStart(IntText(c.minutes), 2, '0');
    var ss := PadStart(IntText(c.seconds), 2, '0');
    ZeroPaddedValue(IntText(c.minutes), 2);
    ZeroPaddedValue(IntText(c.seconds), 2);
    DigitsRoundTrip(c.minutes);
    DigitsRoundTrip(c.seconds);
    SplitClockText(mm, ss);
  }

  /**
    `updateMeetingTimer`, identical in both variants: no display unless a
    measurement runs; otherwise the "mm:ss" text of the time since the start,
    whose fields read back as the whole seconds elapsed, split into minutes
    and seconds below 60, with at least two digits of minutes and exactly two
    of seconds.
  */
  function MeetingTimer(isMeeting: bool, meetingStart: int, now: int): (t: Option<string>)
    ensures t.None? <==> !isMeeting
    ensures isMeeting && now >= meetingStart ==>
      && DecodeClock(t.value).Some?
      && var c := DecodeClock(t.value).value;
        && 0 <= c.seconds < 60
        && c.minutes * 60 + c.seconds == (now - meetingStart) / MsPerSecond
    ensures isMeeting && now >= meetingStart ==>
      ColonIndex(t.value) >= 2 && |t.value| - ColonIndex(t.value) - 1 == 2
  {
    if !isMeeting then None
    else
      var elapsed := now - meetingStart;
      if elapsed >= 0 then
        ClockRoundTrip(elapsed);
        ClockCountsWholeSeconds(elapsed);
        Some(ClockText(elapsed))
      else Some(ClockText(elapsed))
  }
}
