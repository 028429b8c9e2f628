/**
 * Timestamps as Python's naive `datetime` holds them, and the text form that
 * `datetime.isoformat()` writes and `datetime.fromisoformat()` reads back: the
 * extended calendar date and time of day of section 5.4 of ISO 8601:2004,
 * `YYYY-MM-DDTHH:MM:SS`, followed by `.ffffff` when the microseconds are not zero.
 */
module IsoTime {
  import opened Wrappers

  datatype DateTime = DateTime(year: int, month: int, day: int,
                               hour: int, minute: int, second: int, microsecond: int)

  predicate IsLeapYear(y: int) {
    y % 4 == 0 && (y % 100 != 0 || y % 400 == 0)
  }

  function DaysInMonth(y: int, m: int): int
    requires 1 <= m <= 12
  {
    if m == 2 then (if IsLeapYear(y) then 29 else 28)
    else if m == 4 || m == 6 || m == 9 || m == 11 then 30
    else 31
  }

  /** The ranges `datetime` enforces on its fields. */
  predicate IsValid(d: DateTime) {
    1 <= d.year <= 9999 && 1 <= d.month <= 12 && 1 <= d.day <= DaysInMonth(d.year, d.month) &&
    0 <= d.hour < 24 && 0 <= d.minute < 60 && 0 <= d.second < 60 &&
    0 <= d.microsecond < 1000000
  }

  /** A `datetime` value: only valid dates and times exist. */
  type Timestamp = d: DateTime | IsValid(d) witness DateTime(1, 1, 1, 0, 0, 0, 0)

  predicate IsDigit(c: char) {
    '0' <= c <= '9'
  }

  function DigitChar(d: nat): char
    requires d < 10
  {
    (48 + d) as char
  }

  function DigitValue(c: char): nat
    requires IsDigit(c)
  {
    c as int - 48
  }

  function Pow10(w: nat): nat {
    if w == 0 then 1 else 10 * Pow10(w - 1)
  }

  /** `n` in exactly `width` decimal digits, zero-padded on the left. */
  function Digits(n: nat, width: nat): (s: string)
    ensures |s| == width
    ensures forall k :: 0 <= k < |s| ==> IsDigit(s[k])
  {
    if width == 0 then [] else Digits(n / 10, width - 1) + [DigitChar(n % 10)]
  }

  /** The value of a string of decimal digits; None if some character is not a digit. */
  function ParseDigits(s: string): (r: Option<nat>)
    ensures r.Some? <==> forall k :: 0 <= k < |s| ==> IsDigit(s[k])
  {
    if s == [] then Some(0)
    else
      var init := s[..|s| - 1];
      assert forall k :: 0 <= k < |init| ==> init[k] == s[k];
      if !IsDigit(s[|s| - 1]) then None
      else match ParseDigits(init)
        case None => None
        case Some(v) => Some(10 * v + DigitValue(s[|s| - 1]))
  }

  lemma {:induction false} DigitsRoundTrip(n: nat, width: nat)
    requires n < Pow10(width)
    ensures ParseDigits(Digits(n, width)) == Some(n)
  {
    if width > 0 {
      assert n / 10 < Pow10(width - 1);
      DigitsRoundTrip(n / 10, width - 1);
      var s := Digits(n, width);
      assert s[..|s| - 1] == Digits(n / 10, width - 1);
    }
  }

  /** A string of digits is the zero-padded form of its own value. */
  lemma {:induction false} ParseDigitsCanonical(s: string)
    requires ParseDigits(s).Some?
    ensures Digits(ParseDigits(s).value, |s|) == s
  {
    if s != [] {
      var init := s[..|s| - 1];
      var v := ParseDigits(init).value;
      var d := DigitValue(s[|s| - 1]);
      ParseDigitsCanonical(init);
      assert (10 * v + d) / 10 == v && (10 * v + d) % 10 == d;
      assert DigitChar(d) == s[|s| - 1];
      assert s == init + [s[|s| - 1]];
    }
  }

  /** Three zero-padded numbers joined by `sep`, the first `width` digits wide and the others two. */
  function Triple(a: nat, b: nat, c: nat, sep: char, width: nat): (s: string)
    ensures |s| == width + 6
  {
    Digits(a, width) + [sep] + Digits(b, 2) + [sep] + Digits(c, 2)
  }

  /** Reads back what `Triple` writes; None when a separator or a digit is missing. */
  function ParseTriple(s: string, sep: char, width: nat): Option<(nat, nat, nat)>
    requires |s| == width + 6
  {
    if s[width] != sep || s[width + 3] != sep then None
    else match (ParseDigits(s[..width]), ParseDigits(s[width + 1..width + 3]), ParseDigits(s[width + 4..]))
      case (Some(a), Some(b), Some(c)) => Some((a, b, c))
      case _ => None
  }

  lemma JoinedParts(x: string, y: string, z: string, sep: char)
    ensures var s := x + [sep] + y + [sep] + z;
      s[..|x|] == x && s[|x|] == sep && s[|x| + 1..|x| + 1 + |y|] == y &&
      s[|x| + 1 + |y|] == sep && s[|x| + |y| + 2..] == z
  {
    var s := x + [sep] + y + [sep] + z;
    assert s == x + ([sep] + y + [sep] + z);
    assert s[|x| + 1..] == y + ([sep] + z);
  }

  lemma TripleRoundTrip(a: nat, b: nat, c: nat, sep: char, width: nat)
    requires a < Pow10(width) && b < 100 && c < 100
    ensures ParseTriple(Triple(a, b, c, sep, width), sep, width) == Some((a, b, c))
  {
    assert Pow10(2) == 100;
    DigitsRoundTrip(a, width);
    DigitsRoundTrip(b, 2);
    DigitsRoundTrip(c, 2);
    JoinedParts(Digits(a, width), Digits(b, 2), Digits(c, 2), sep);
  }

  lemma TripleCanonical(s: string, sep: char, width: nat)
    requires |s| == width + 6 && ParseTriple(s, sep, width).Some?
    ensures var p := ParseTriple(s, sep, width).value; Triple(p.0, p.1, p.2, sep, width) == s
  {
    var x, y, z := s[..width], s[width + 1..width + 3], s[width + 4..];
    ParseDigitsCanonical(x);
    ParseDigitsCanonical(y);
    ParseDigitsCanonical(z);
    SplitParts(s, width);
  }

  lemma SplitParts(s: string, width: nat)
    requires |s| == width + 6
    ensures s == s[..width] + [s[width]] + s[width + 1..width + 3] + [s[width + 3]] + s[width + 4..]
  {
  }

  function DateText(t: Timestamp): string {
    Triple(t.year, t.month, t.day, '-', 4)
  }

  function TimeText(t: Timestamp): string {
    Triple(t.hour, t.minute, t.second, ':', 2)
  }

  function Fraction(t: Timestamp): string {
    if t.microsecond == 0 then "" else "." + Digits(t.microsecond, 6)
  }

  /** `t.isoformat()`. */
  function IsoFormat(t: Timestamp): (s: string)
    ensures |s| == if t.microsecond == 0 then 19 else 26
  {
    DateText(t) + "T" + TimeText(t) + Fraction(t)
  }

  /**
   * `datetime.fromisoformat(s)` on the two shapes `isoformat` writes; None where
   * Python raises ValueError (a wrong shape, a non-digit, a field out of range).
   */
  function FromIsoFormat(s: string): (r: Option<Timestamp>)
    ensures r.Some? ==> (|s| == 19 || |s| == 26) && s[10] == 'T'
    ensures r.Some? ==> ReadsAs(s, r.value)
    ensures r.None? ==> forall d: Timestamp :: !ReadsAs(s, d)
  {
    if |s| != 19 && |s| != 26 then None
    else if s[10] != 'T' || (|s| == 26 && s[19] != '.') then None
    else
      var micro := if |s| == 26 then ParseDigits(s[20..]) else Some(0);
      match (ParseTriple(s[..10], '-', 4), ParseTriple(s[11..19], ':', 2), micro)
      case (Some(date), Some(time), Some(us)) =>
        var d := DateTime(date.0, date.1, date.2, time.0, time.1, time.2, us);
        if IsValid(d) then Some(d) else None
      case _ => None
  }

  /** `s` has one of the two shapes `isoformat` writes and its fields read as those of `d`. */
  predicate ReadsAs(s: string, d: Timestamp) {
    (|s| == 19 || |s| == 26) && s[10] == 'T' && (|s| == 26 ==> s[19] == '.') &&
    ParseTriple(s[..10], '-', 4) == Some((d.year as nat, d.month as nat, d.day as nat)) &&
    ParseTriple(s[11..19], ':', 2) == Some((d.hour as nat, d.minute as nat, d.second as nat)) &&
    if |s| == 26 then ParseDigits(s[20..]) == Some(d.microsecond as nat) else d.microsecond == 0
  }

  /** `fromisoformat` gives `d` exactly for the strings whose fields read as those of `d`. */
  lemma FromIsoFormatReads(s: string, d: Timestamp)
    ensures FromIsoFormat(s) == Some(d) <==> ReadsAs(s, d)
  {
  }

  /** The fields `fromisoformat` read are the fields `isoformat` writes for the result. */
  lemma IsoCanonical(s: string, d: Timestamp)
    requires ReadsAs(s, d)
    ensures IsoFormat(d) == s || (s == IsoFormat(d) + ".000000" && d.microsecond == 0)
  {
    IsoHead(s, d);
    if |s| == 26 {
      IsoCanonicalFraction(s, d);
    } else {
      assert s == s[..19];
    }
  }

  lemma IsoCanonicalFraction(s: string, d: Timestamp)
    requires |s| == 26 && s[19] == '.' && ParseDigits(s[20..]) == Some(d.microsecond as nat)
    requires s[..19] == DateText(d) + "T" + TimeText(d)
    ensures IsoFormat(d) == s || (s == IsoFormat(d) + ".000000" && d.microsecond == 0)
  {
    var head := DateText(d) + "T" + TimeText(d);
    assert s == head + "." + s[20..] by { assert s == s[..19] + "." + s[20..]; }
    assert s[20..] == Digits(d.microsecond, 6) by { ParseDigitsCanonical(s[20..]); }
    if d.microsecond == 0 {
      ZeroFraction();
    }
  }

  lemma IsoHead(s: string, d: Timestamp)
    requires |s| >= 19 && s[10] == 'T'
    requires ParseTriple(s[..10], '-', 4) == Some((d.year as nat, d.month as nat, d.day as nat))
    requires ParseTriple(s[11..19], ':', 2) == Some((d.hour as nat, d.minute as nat, d.second as nat))
    ensures s[..19] == DateText(d) + "T" + TimeText(d)
  {
    TripleCanonical(s[..10], '-', 4);
    TripleCanonical(s[11..19], ':', 2);
    assert s[..19] == s[..10] + "T" + s[11..19];
  }

  lemma ZeroFraction()
    ensures Digits(0, 6) == "000000"
  {
    assert Digits(0, 1) == "0";
    assert Digits(0, 2) == "00";
    assert Digits(0, 3) == "000";
    assert Digits(0, 4) == "0000";
    assert Digits(0, 5) == "00000";
  }

  /**
   * Whatever `fromisoformat` accepts is what `isoformat` writes for the result,
   * except that an explicit zero fraction is accepted where `isoformat` omits it.
   */
  lemma FromIsoFormatCanonical(s: string)
    requires FromIsoFormat(s).Some?
    ensures var t := FromIsoFormat(s).value;
            IsoFormat(t) == s || (s == IsoFormat(t) + ".000000" && t.microsecond == 0)
  {
    FromIsoFormatReads(s, FromIsoFormat(s).value);
    IsoCanonical(s, FromIsoFormat(s).value);
  }

  /** What `isoformat` writes reads back as its fields. */
  lemma IsoFormatReadsAs(t: Timestamp)
    ensures ReadsAs(IsoFormat(t), t)
  {
    IsoLayout(t);
    assert ParseTriple(DateText(t), '-', 4) == Some((t.year as nat, t.month as nat, t.day as nat)) by {
      assert Pow10(4) == 10000;
      TripleRoundTrip(t.year, t.month, t.day, '-', 4);
    }
    assert ParseTriple(TimeText(t), ':', 2) == Some((t.hour as nat, t.minute as nat, t.second as nat)) by {
      TripleRoundTrip(t.hour, t.minute, t.second, ':', 2);
    }
    if t.microsecond != 0 {
      assert ParseDigits(Digits(t.microsecond, 6)) == Some(t.microsecond as nat) by {
        assert Pow10(6) == 1000000;
        DigitsRoundTrip(t.microsecond, 6);
      }
    }
  }

  /** Where `isoformat` puts each part. */
  lemma IsoLayout(t: Timestamp)
    ensures var s := IsoFormat(t);
      s[..10] == DateText(t) && s[10] == 'T' && s[11..19] == TimeText(t) &&
      (t.microsecond == 0 ==> |s| == 19) &&
      (t.microsecond != 0 ==> |s| == 26 && s[19] == '.' && s[20..] == Digits(t.microsecond, 6))
  {
    var s := IsoFormat(t);
    var date, time := DateText(t), TimeText(t);
    assert s == date + ("T" + time + Fraction(t));
    assert s[11..] == time + Fraction(t);
  }

  /** Reading back what `isoformat` wrote gives the same timestamp. */
  lemma IsoRoundTrip(t: Timestamp)
    ensures FromIsoFormat(IsoFormat(t)) == Some(t)
  {
    IsoFormatReadsAs(t);
    FromIsoFormatReads(IsoFormat(t), t);
  }

  /** Distinct timestamps are written as distinct text. */
  lemma IsoFormatInjective(t: Timestamp, u: Timestamp)
    ensures IsoFormat(t) == IsoFormat(u) ==> t == u
  {
    IsoRoundTrip(t);
    IsoRoundTrip(u);
  }
}
