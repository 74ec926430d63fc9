/** The formatting helpers of `src/utils/format.js`: rupee amounts with two
    decimals (`inr`), two-digit padding and the `<input type="datetime-local">`
    value (`toLocalInput`) with its reader (`fromLocalInput`). */
module Format {
  import opened Common
  import opened Text

  // ---------------------------------------------------------------- inr

  /** The number of paise `toFixed(2)` prints for `x`: the magnitude times
      100, rounded to the nearest integer, halves upwards. */
  function Paise(x: real): nat {
    var a := if x < 0.0 then -x else x;
    var n := (a * 100.0 + 0.5).Floor;
    n
  }

  /** The value that a `toFixed(2)` text stands for: `x` rounded to paise. */
  function RoundedToPaise(x: real): real {
    var v := Paise(x) as real / 100.0;
    if x < 0.0 then -v else v
  }

  /** `Number(x).toFixed(2)` of an exact value: an optional minus sign (for
      any negative value, even one that rounds to zero), the whole rupees, a
      point and exactly two digits of paise. */
  function FixedTwo(x: real): string {
    var unsigned := PaiseText(Paise(x));
    if x < 0.0 then "-" + unsigned else unsigned
  }

  /** `n` paise as whole rupees, a point and two digits of paise. */
  function PaiseText(n: nat): string {
    NatText(n / 100) + "." + [DigitChar(n % 100 / 10), DigitChar(n % 10)]
  }

  /** The unsigned text is digits, a point and two digits. */
  lemma PaiseTextShape(n: nat)
    ensures var u := PaiseText(n);
      |u| >= 4 && u[|u| - 3] == '.' && IsDigit(u[|u| - 2]) && IsDigit(u[|u| - 1])
      && AllDigits(u[..|u| - 3])
  {
    var whole := NatText(n / 100);
    var u := PaiseText(n);
    assert u[..|u| - 3] == whole;
  }

  /** `inr(n)`: a missing value counts as 0. */
  function Inr(n: Option<real>): string {
    FixedTwo(n.GetOr(0.0))
  }

  /** A missing amount and zero both print as "0.00". */
  lemma InrZero()
    ensures Inr(None) == "0.00" && Inr(Some(0.0)) == "0.00"
  {
    assert Paise(0.0) == 0;
  }

  /** The text of `inr` has a single point, followed by exactly two digits;
      it starts with a minus exactly for a negative amount, and every other
      character before the point is a digit. */
  lemma InrShape(n: Option<real>)
    ensures var r := Inr(n);
      |r| >= 4 && r[|r| - 3] == '.' && IsDigit(r[|r| - 2]) && IsDigit(r[|r| - 1])
      && (r[0] == '-' <==> n.GetOr(0.0) < 0.0) && (r[0] != '-' ==> IsDigit(r[0]))
      && forall i :: 0 < i < |r| - 3 ==> IsDigit(r[i])
  {
    var x := n.GetOr(0.0);
    var u := PaiseText(Paise(x));
    PaiseTextShape(Paise(x));
    assert IsDigit(u[0]) by { assert u[0] == u[..|u| - 3][0]; }
    if x < 0.0 {
      var r := "-" + u;
      forall i | 0 < i < |r| - 3 ensures IsDigit(r[i]) {
        assert r[i] == u[..|u| - 3][i - 1];
      }
    } else {
      forall i | 0 < i < |u| - 3 ensures IsDigit(u[i]) {
        assert u[i] == u[..|u| - 3][i];
      }
    }
  }

  /** Reads back a `toFixed(2)` text: optional minus, digits, point, two digits. */
  function ParseFixedTwo(s: string): Option<real> {
    if |s| > 0 && s[0] == '-' then
      match ParseUnsignedFixed(s[1..])
      case Some(v) => Some(-v)
      case None => None
    else ParseUnsignedFixed(s)
  }

  /** Reads digits, a point and two digits. */
  function ParseUnsignedFixed(s: string): Option<real> {
    if |s| >= 4 && s[|s| - 3] == '.' && AllDigits(s[..|s| - 3]) && AllDigits(s[|s| - 2..]) then
      Some(ParseNat(s[..|s| - 3]) as real + ParseNat(s[|s| - 2..]) as real / 100.0)
    else None
  }

  /** How `ParseUnsignedFixed` reads digits, a point and two digits. */
  lemma ParseUnsignedLayout(whole: string, a: char, b: char)
    requires whole != [] && AllDigits(whole) && IsDigit(a) && IsDigit(b)
    ensures ParseUnsignedFixed(whole + "." + [a, b]) == Some(ParseNat(whole) as real + ParseNat([a, b]) as real / 100.0)
  {
    var body := whole + "." + [a, b];
    assert body[..|body| - 3] == whole;
    assert body[|body| - 2..] == [a, b];
    assert |body| >= 4 && body[|body| - 3] == '.';
    assert AllDigits(body[..|body| - 3]) && AllDigits(body[|body| - 2..]);
  }

  /** How `ParseFixedTwo` reads a text laid out as `toFixed(2)` lays it out. */
  lemma ParseFixedTwoLayout(whole: string, a: char, b: char)
    requires whole != [] && AllDigits(whole) && IsDigit(a) && IsDigit(b)
    ensures var v := ParseNat(whole) as real + ParseNat([a, b]) as real / 100.0;
      ParseFixedTwo(whole + "." + [a, b]) == Some(v) && ParseFixedTwo("-" + (whole + "." + [a, b])) == Some(-v)
  {
    var body := whole + "." + [a, b];
    ParseUnsignedLayout(whole, a, b);
    assert body[0] == whole[0] != '-';
    assert ("-" + body)[1..] == body;
  }

  /** Reading `toFixed(2)`'s text back gives the value rounded to paise. */
  lemma FixedTwoRoundTrip(x: real)
    ensures ParseFixedTwo(FixedTwo(x)) == Some(RoundedToPaise(x))
  {
    var n := Paise(x);
    var a, b := DigitChar(n % 100 / 10), DigitChar(n % 10);
    ParseFixedTwoLayout(NatText(n / 100), a, b);
    ParseNatText(n / 100);
    ParseNatTwo(a, b);
    assert n % 100 / 10 * 10 + n % 10 == n % 100;
    assert (n / 100) as real + (n % 100) as real / 100.0 == n as real / 100.0;
  }

  /** Rounding to paise moves the value by at most half a paisa. */
  lemma RoundingError(x: real)
    ensures -0.005 <= RoundedToPaise(x) - x <= 0.005
  {
    var a := if x < 0.0 then -x else x;
    var n := Paise(x);
    assert n as real <= a * 100.0 + 0.5 < n as real + 1.0;
  }

  /** An amount that is a whole number of paise prints and reads back exactly. */
  lemma WholePaiseExact(x: real)
    requires (x * 100.0).Floor as real == x * 100.0
    ensures ParseFixedTwo(FixedTwo(x)) == Some(x)
  {
    FixedTwoRoundTrip(x);
    var a := if x < 0.0 then -x else x;
    var k := (x * 100.0).Floor;
    var m := if k < 0 then -k else k;
    assert a * 100.0 == m as real;
    assert (a * 100.0 + 0.5).Floor == m;
  }

  // ---------------------------------------------------------------- padding

  /** `String(n).padStart(2, "0")`. */
  function Pad2(n: nat): string {
    var t := NatText(n);
    if |t| < 2 then "0" + t else t
  }

  /** Padding gives at least two digits, exactly two below 100, leaves a
      two-digit (or longer) number unchanged, and keeps its value. */
  lemma Pad2Meaning(n: nat)
    ensures AllDigits(Pad2(n)) && |Pad2(n)| >= 2
    ensures n < 100 ==> |Pad2(n)| == 2
    ensures n >= 10 ==> Pad2(n) == NatText(n)
    ensures ParseNat(Pad2(n)) == n
  {
    ParseNatText(n);
    if n < 10 {
      ParseNatLeadingZero(NatText(n));
    } else {
      assert NatText(n) == NatText(n / 10) + [DigitChar(n % 10)];
      if n < 100 {
        assert n / 10 < 10;
      }
    }
  }

  // ---------------------------------------------------------------- date fields

  /** The local wall-clock fields of a `Date` (`getMonth` counts from 0). */
  datatype LocalTime = LocalTime(year: int, month0: int, day: int, hour: int, minute: int, second: int, millis: int)

  /** The ranges the `Date` getters return. */
  predicate ValidLocal(t: LocalTime) {
    0 <= t.month0 < 12 && 1 <= t.day <= 31 && 0 <= t.hour < 24
    && 0 <= t.minute < 60 && 0 <= t.second < 60 && 0 <= t.millis < 1000
  }

  /** `toLocalInput(iso)`: the fields of `iso`, or of the current time when
      `iso` is missing, as `<year>-MM-DDTHH:MM`. */
  function ToLocalInput(iso: Option<LocalTime>, now: LocalTime): string
    requires iso.Some? ==> ValidLocal(iso.value)
    requires ValidLocal(now)
  {
    var d := iso.GetOr(now);
    IntText(d.year) + LocalTail(d.month0 + 1, d.day, d.hour, d.minute)
  }

  /** The fixed-width part `-MM-DDTHH:MM` after the year. */
  function LocalTail(month: nat, day: nat, hour: nat, minute: nat): string {
    "-" + Pad2(month) + "-" + Pad2(day) + "T" + Pad2(hour) + ":" + Pad2(minute)
  }

  /** `fromLocalInput(s)` up to the time-zone conversion: reads the fields of
      a `<year>-MM-DDTHH:MM` text; seconds and milliseconds become 0. A text
      of any other shape, or with a field out of range, gives `None` (where
      `toISOString` throws on an invalid date). */
  function FromLocalInput(s: string): Option<LocalTime> {
    if |s| < 13 then None
    else
      var k := |s| - 12;
      match (ParseInt(s[..k]), ReadTail(s[k..]))
      case (Some(y), Some(f)) => Some(LocalTime(y, f.0 - 1, f.1, f.2, f.3, 0, 0))
      case _ => None
  }

  /** Reads `-MM-DDTHH:MM` into month (from 1), day, hour and minute, each in range. */
  function ReadTail(r: string): Option<(int, int, int, int)> {
    if |r| == 12 && r[0] == '-' && r[3] == '-' && r[6] == 'T' && r[9] == ':'
       && AllDigits(r[1..3]) && AllDigits(r[4..6]) && AllDigits(r[7..9]) && AllDigits(r[10..]) then
      var mo, d, h, mi := ParseNat(r[1..3]), ParseNat(r[4..6]), ParseNat(r[7..9]), ParseNat(r[10..]);
      if 1 <= mo <= 12 && 1 <= d <= 31 && h < 24 && mi < 60 then Some((mo, d, h, mi)) else None
    else None
  }

  /** The fixed-width tail `-MM-DDTHH:MM` of the input's text. */
  lemma TailLayout(mo: string, d: string, h: string, mi: string)
    requires |mo| == 2 && |d| == 2 && |h| == 2 && |mi| == 2
    ensures var r := "-" + mo + "-" + d + "T" + h + ":" + mi;
      |r| == 12 && r[0] == '-' && r[1..3] == mo && r[3] == '-' && r[4..6] == d
      && r[6] == 'T' && r[7..9] == h && r[9] == ':' && r[10..] == mi
  {
    var r := "-" + mo + "-" + d + "T" + h + ":" + mi;
    assert r == ['-', mo[0], mo[1], '-', d[0], d[1], 'T', h[0], h[1], ':', mi[0], mi[1]];
  }

  /** The tail written for in-range fields reads back as those fields. */
  lemma ReadTailPadded(mo: nat, d: nat, h: nat, mi: nat)
    requires 1 <= mo <= 12 && 1 <= d <= 31 && h < 24 && mi < 60
    ensures var r := LocalTail(mo, d, h, mi);
      |r| == 12 && ReadTail(r) == Some((mo, d, h, mi))
  {
    Pad2Meaning(mo);
    Pad2Meaning(d);
    Pad2Meaning(h);
    Pad2Meaning(mi);
    TailLayout(Pad2(mo), Pad2(d), Pad2(h), Pad2(mi));
  }

  /** `FromLocalInput` reads a year text followed by a well-formed tail. */
  lemma FromLocalInputParts(y: string, r: string, year: int, f: (int, int, int, int))
    requires ParseInt(y) == Some(year) && |r| == 12 && ReadTail(r) == Some(f)
    ensures FromLocalInput(y + r) == Some(LocalTime(year, f.0 - 1, f.1, f.2, f.3, 0, 0))
  {
    var s := y + r;
    assert s[..|y|] == y && s[|y|..] == r;
  }

  /** Writing a time into the input's text and reading it back gives the same
      time to the minute: only seconds and milliseconds are lost. */
  lemma LocalInputRoundTrip(t: LocalTime, now: LocalTime)
    requires ValidLocal(t) && ValidLocal(now)
    ensures FromLocalInput(ToLocalInput(Some(t), now)) == Some(t.(second := 0, millis := 0))
  {
    var y := IntText(t.year);
    var r := LocalTail(t.month0 + 1, t.day, t.hour, t.minute);
    ReadTailPadded(t.month0 + 1, t.day, t.hour, t.minute);
    ParseIntText(t.year);
    FromLocalInputParts(y, r, t.year, (t.month0 + 1, t.day, t.hour, t.minute));
  }
}
