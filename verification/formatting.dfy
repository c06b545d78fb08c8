/** The text helpers of script.js: the elapsed-time clock `HH:MM:SS`, the
    file-name date stamp, and the decimal rendering they rest on. */
module Formatting {

  // ----- decimal digits -----

  function DigitChar(d: nat): char
    requires d < 10
  {
    ('0' as int + d) as char
  }

  /** The value of a decimal digit character (0 for anything else). */
  function DigitValue(c: char): nat
  {
    if '0' <= c <= '9' then c as int - '0' as int else 0
  }

  /** `n.toString()` for a non-negative integer. */
  function Digits(n: nat): (s: string)
    ensures 1 <= |s|
    ensures forall i :: 0 <= i < |s| ==> '0' <= s[i] <= '9'
    ensures n < 10 <==> |s| == 1
    ensures 10 <= n < 100 <==> |s| == 2
  {
    if n < 10 then [DigitChar(n)] else Digits(n / 10) + [DigitChar(n % 10)]
  }

  /** The number a string of decimal digits denotes (most significant first). */
  function DecimalValue(s: string): nat
  {
    if s == [] then 0 else 10 * DecimalValue(s[..|s| - 1]) + DigitValue(s[|s| - 1])
  }

  /** Reading back what `Digits` wrote gives the number again. */
  lemma {:induction false} DigitsRoundTrip(n: nat)
    ensures DecimalValue(Digits(n)) == n
  {
    if n >= 10 {
      DigitsRoundTrip(n / 10);
      var s := Digits(n / 10) + [DigitChar(n % 10)];
      assert s[..|s| - 1] == Digits(n / 10);
    }
  }

  /** A leading zero does not change the value. */
  lemma {:induction false} LeadingZero(s: string)
    ensures DecimalValue(['0'] + s) == DecimalValue(s)
  {
    if s != [] {
      var t := ['0'] + s;
      assert t[..|t| - 1] == ['0'] + s[..|s| - 1];
      LeadingZero(s[..|s| - 1]);
    }
  }

  /** Every character is a decimal digit. */
  predicate AllDigits(s: string)
  {
    forall i :: 0 <= i < |s| ==> '0' <= s[i] <= '9'
  }

  /** `padStart(2, '0')`: zeros in front of `s` up to two characters, so the
      value is kept and a digit string stays a digit string. */
  function PadStart2(s: string): (r: string)
    ensures |r| == if |s| >= 2 then |s| else 2
    ensures AllDigits(s) ==> AllDigits(r)
    ensures DecimalValue(r) == DecimalValue(s)
  {
    if |s| >= 2 then s
    else if |s| == 1 then LeadingZero(s); ['0'] + s
    else assert DecimalValue("00") == 0; "00"
  }

  /** The padding only puts zeros in front: the original string is the tail. */
  lemma PadStart2Layout(s: string)
    ensures var r := PadStart2(s);
            && r[|r| - |s|..] == s
            && forall i :: 0 <= i < |r| - |s| ==> r[i] == '0'
  {
  }

  // ----- formatTime -----

  datatype Clock = Clock(hours: nat, minutes: nat, seconds: nat)

  /** The fields `formatTime` shows for `ms` milliseconds: whole seconds split
      into hours, minutes below 60 and seconds below 60. */
  function ClockOf(ms: nat): (c: Clock)
    ensures c.minutes < 60 && c.seconds < 60
    ensures 3600 * c.hours + 60 * c.minutes + c.seconds == ms / 1000
  {
    var seconds := ms / 1000;
    Clock(seconds / 3600, (seconds % 3600) / 60, seconds % 60)
  }

  /** `formatTime(ms)`: each field in decimal, padded to two digits, so at
      least `HH:MM:SS`, exactly that when the hours are below 100. Every
      character but the last two colons is a digit; the part before them
      shows the hours, and the two-digit fields between and after them the
      minutes and seconds. */
  function FormatTime(ms: nat): (t: string)
    ensures |t| >= 8
    ensures t[|t| - 3] == ':' && t[|t| - 6] == ':'
    ensures forall i :: 0 <= i < |t| && i != |t| - 3 && i != |t| - 6 ==> '0' <= t[i] <= '9'
    ensures DecimalValue(t[..|t| - 6]) == ClockOf(ms).hours
    ensures DecimalValue(t[|t| - 5..|t| - 3]) == ClockOf(ms).minutes
    ensures DecimalValue(t[|t| - 2..]) == ClockOf(ms).seconds
    ensures ClockOf(ms).hours < 100 ==> |t| == 8
  {
    var c := ClockOf(ms);
    RenderedShape(c);
    RenderedValues(c);
    Render(c)
  }

  /** The clock fields, each in decimal and padded to two digits, joined by
      colons. */
  function Render(c: Clock): string
  {
    PadStart2(Digits(c.hours)) + ":" + PadStart2(Digits(c.minutes)) + ":" + PadStart2(Digits(c.seconds))
  }

  /** The rendered clock is at least `HH:MM:SS`, exactly that below 100
      hours, and digits apart from the last two colons. */
  lemma RenderedShape(c: Clock)
    requires c.minutes < 60 && c.seconds < 60
    ensures var t := Render(c);
            && |t| >= 8
            && t[|t| - 3] == ':' && t[|t| - 6] == ':'
            && (forall i :: 0 <= i < |t| && i != |t| - 3 && i != |t| - 6 ==> '0' <= t[i] <= '9')
            && (c.hours < 100 ==> |t| == 8)
  {
    var h, m, s := PadStart2(Digits(c.hours)), PadStart2(Digits(c.minutes)), PadStart2(Digits(c.seconds));
    PaddedField(c.hours);
    PaddedField(c.minutes);
    PaddedField(c.seconds);
    ClockLayout(h, m, s);
  }

  /** The fields of the rendered clock read back as the clock's fields. */
  lemma RenderedValues(c: Clock)
    requires c.minutes < 60 && c.seconds < 60
    ensures var t := Render(c);
            && |t| >= 6
            && DecimalValue(t[..|t| - 6]) == c.hours
            && DecimalValue(t[|t| - 5..|t| - 3]) == c.minutes
            && DecimalValue(t[|t| - 2..]) == c.seconds
  {
    var h, m, s := PadStart2(Digits(c.hours)), PadStart2(Digits(c.minutes)), PadStart2(Digits(c.seconds));
    PaddedField(c.hours);
    PaddedField(c.minutes);
    PaddedField(c.seconds);
    FieldSlices(h, m, s);
  }

  /** One padded clock field: digits only, reading back as the number, and
      two characters long below 100. */
  lemma PaddedField(n: nat)
    ensures AllDigits(PadStart2(Digits(n)))
    ensures DecimalValue(PadStart2(Digits(n))) == n
    ensures n < 100 ==> |PadStart2(Digits(n))| == 2
  {
    DigitsRoundTrip(n);
  }

  /** Where the fields of `h:mm:ss` sit. */
  lemma FieldSlices(h: string, m: string, s: string)
    requires |m| == 2 && |s| == 2
    ensures var t := h + ":" + m + ":" + s;
            t[..|t| - 6] == h && t[|t| - 5..|t| - 3] == m && t[|t| - 2..] == s
  {
    var t := h + ":" + m + ":" + s;
    assert t[..|t| - 6] == h;
    assert t[|t| - 5..|t| - 3] == m;
    assert t[|t| - 2..] == s;
  }

  /** `h:mm:ss` has its colons in place, and is digits apart from them when
      its fields are. */
  lemma ClockLayout(h: string, m: string, s: string)
    requires |m| == 2 && |s| == 2
    ensures var t := h + ":" + m + ":" + s;
            && t[|t| - 3] == ':' && t[|t| - 6] == ':'
            && (AllDigits(h) && AllDigits(m) && AllDigits(s) ==>
                  forall i :: 0 <= i < |t| && i != |t| - 3 && i != |t| - 6 ==> '0' <= t[i] <= '9')
  {
    var t := h + ":" + m + ":" + s;
    if AllDigits(h) && AllDigits(m) && AllDigits(s) {
      forall i | 0 <= i < |t| && i != |t| - 3 && i != |t| - 6
        ensures '0' <= t[i] <= '9'
      {
        if i < |h| {
          assert t[i] == h[i];
        } else if i < |h| + 3 {
          assert t[i] == m[i - |h| - 1];
        } else {
          assert t[i] == s[i - |h| - 4];
        }
      }
    }
  }

  /** Read a clock string back: the last two characters are seconds, the two
      before the last colon minutes, and everything before the first of the
      final two colons hours. */
  function ClockSeconds(t: string): nat
  {
    if |t| < 6 then 0
    else 3600 * DecimalValue(t[..|t| - 6]) + 60 * DecimalValue(t[|t| - 5..|t| - 3]) + DecimalValue(t[|t| - 2..])
  }

  /** Reading the clock back gives the whole seconds elapsed. */
  lemma FormatTimeRoundTrip(ms: nat)
    ensures ClockSeconds(FormatTime(ms)) == ms / 1000
  {
  }

  // ----- formatDate -----

  /** `replace(/:/g, '-')`. */
  function ReplaceColons(s: string): (r: string)
    ensures |r| == |s|
    ensures forall i :: 0 <= i < |s| ==> r[i] == (if s[i] == ':' then '-' else s[i])
  {
    if s == [] then [] else [if s[0] == ':' then '-' else s[0]] + ReplaceColons(s[1..])
  }

  /** `formatDate(date)` given `date.toISOString()`: the first 19 characters
      (date and time to the second) with every colon made a hyphen. */
  function FormatDate(iso: string): (stamp: string)
    ensures |stamp| == if |iso| <= 19 then |iso| else 19
    ensures forall i :: 0 <= i < |stamp| ==> stamp[i] != ':'
    ensures forall i :: 0 <= i < |stamp| && iso[i] != ':' ==> stamp[i] == iso[i]
    ensures forall i :: 0 <= i < |stamp| && iso[i] == ':' ==> stamp[i] == '-'
  {
    ReplaceColons(if |iso| <= 19 then iso else iso[..19])
  }
}
