/** Calendar dates as the ledger reads and writes them: Python's `datetime.strptime` restricted to the
    directives %Y, %m and %d, `strftime("%Y-%m-%d")`, and spreadsheet serial day numbers. */
module Dates {
  import opened Util
  import opened Strings

  datatype Date = Date(year: int, month: int, day: int)

  predicate IsLeap(y: int)
  {
    (y % 4 == 0 && y % 100 != 0) || y % 400 == 0
  }

  function DaysInMonth(y: int, m: int): (n: int)
    requires 1 <= m <= 12
    ensures 28 <= n <= 31
  {
    if m == 2 then (if IsLeap(y) then 29 else 28)
    else if m == 4 || m == 6 || m == 9 || m == 11 then 30
    else 31
  }

  /** The dates a Python `datetime` can hold (years 1 to 9999 of the proleptic Gregorian calendar). */
  predicate ValidDate(d: Date)
  {
    1 <= d.year <= 9999 && 1 <= d.month <= 12 && 1 <= d.day <= DaysInMonth(d.year, d.month)
  }

  /** Chronological order of two dates, the order Python's `datetime` comparison uses. */
  predicate Before(a: Date, b: Date)
  {
    a.year < b.year || (a.year == b.year && (a.month < b.month || (a.month == b.month && a.day < b.day)))
  }

  predicate NotAfter(a: Date, b: Date)
  {
    a == b || Before(a, b)
  }

  // ---------------------------------------------------------------- strptime

  /** One element of a `strptime` format string: a field directive or a literal character. */
  datatype Directive = Year | Month | Day | Lit(c: char)

  type Format = seq<Directive>

  const IsoFormat: Format := [Year, Lit('-'), Month, Lit('-'), Day]

  /** The formats the importers try, in order. */
  const ImportFormats: seq<Format> := [
    [Year, Lit('-'), Month, Lit('-'), Day],
    [Year, Lit('/'), Month, Lit('/'), Day],
    [Day, Lit('/'), Month, Lit('/'), Year],
    [Day, Lit('-'), Month, Lit('-'), Year],
    [Month, Lit('/'), Day, Lit('/'), Year],
    [Year, Lit('年'), Month, Lit('月'), Day, Lit('日')],
    [Year, Lit('.'), Month, Lit('.'), Day],
    [Day, Lit('.'), Month, Lit('.'), Year]
  ]

  /** Length of the run of ASCII digits at the front of `s`. */
  function DigitRun(s: string): (k: nat)
    ensures k <= |s|
    ensures forall i :: 0 <= i < k ==> IsDigit(s[i])
    ensures k == |s| || !IsDigit(s[k])
  {
    if s != [] && IsDigit(s[0]) then 1 + DigitRun(s[1..]) else 0
  }

  /** The texts %m accepts: one or two digits with value 1..12. */
  predicate AcceptsMonth(t: string)
  {
    IsDigits(t) && |t| <= 2 && 1 <= DigitsValue(t) <= 12
  }

  /** The digit texts %d accepts: one or two digits with value 1..31. */
  predicate AcceptsDay(t: string)
  {
    IsDigits(t) && |t| <= 2 && 1 <= DigitsValue(t) <= 31
  }

  /** Matches `s` against `fmt`, filling the fields of `acc`. In every format used here the fields are
      separated by non-digit literals, so each numeric field takes the whole run of ASCII digits in front
      of it; %d also accepts a space followed by a single digit. The whole of `s` must be consumed.
      Python's patterns for %Y, %m and %d also match the other Unicode decimal digits; this reading
      accepts ASCII digits only. */
  function Match(s: string, fmt: Format, acc: Date): Option<Date>
    decreases |fmt|
  {
    if fmt == [] then (if s == [] then Some(acc) else None)
    else match fmt[0]
      case Lit(c) =>
        if s != [] && s[0] == c then Match(s[1..], fmt[1..], acc) else None
      case Year =>
        var k := DigitRun(s);
        if k == 4 then Match(s[k..], fmt[1..], acc.(year := DigitsValue(s[..k]))) else None
      case Month =>
        var k := DigitRun(s);
        if AcceptsMonth(s[..k]) then Match(s[k..], fmt[1..], acc.(month := DigitsValue(s[..k]))) else None
      case Day =>
        if |s| >= 2 && s[0] == ' ' && '1' <= s[1] <= '9' && DigitRun(s[1..]) == 1 then
          Match(s[2..], fmt[1..], acc.(day := DigitValue(s[1])))
        else
          var k := DigitRun(s);
          if AcceptsDay(s[..k]) then Match(s[k..], fmt[1..], acc.(day := DigitsValue(s[..k]))) else None
  }

  /** Python `datetime.strptime(s, fmt)` for a format made of %Y, %m, %d and literals; None is the ValueError.
      Fields the format leaves out default to 1900-01-01, as in Python. */
  function Strptime(s: string, fmt: Format): (r: Option<Date>)
    ensures r.Some? ==> ValidDate(r.value)
  {
    match Match(s, fmt, Date(1900, 1, 1))
    case Some(d) => if ValidDate(d) then Some(d) else None
    case None => None
  }

  /** The check `datetime.strptime(s, "%Y-%m-%d")` succeeds. */
  predicate IsIsoDate(s: string)
  {
    Strptime(s, IsoFormat).Some?
  }

  /** Tries each format in turn; the first that parses wins. */
  function FirstFormat(s: string, fmts: seq<Format>): (r: Option<Date>)
    ensures r.Some? ==> ValidDate(r.value)
  {
    if fmts == [] then None
    else match Strptime(s, fmts[0])
      case Some(d) => Some(d)
      case None => FirstFormat(s, fmts[1..])
  }

  /** FirstFormat succeeds exactly when some format parses, and then returns the result of the first such format. */
  lemma {:induction false} FirstFormatFirstSuccess(s: string, fmts: seq<Format>)
    ensures FirstFormat(s, fmts).Some? <==> exists i :: 0 <= i < |fmts| && Strptime(s, fmts[i]).Some?
    ensures FirstFormat(s, fmts).Some? ==>
      exists i :: 0 <= i < |fmts| && Strptime(s, fmts[i]) == FirstFormat(s, fmts)
        && forall j :: 0 <= j < i ==> Strptime(s, fmts[j]).None?
  {
    if fmts != [] {
      if Strptime(s, fmts[0]).Some? {
        assert Strptime(s, fmts[0]) == FirstFormat(s, fmts);
      } else {
        var r := FirstFormat(s, fmts[1..]);
        FirstFormatFirstSuccess(s, fmts[1..]);
        if r.Some? {
          var i :| 0 <= i < |fmts| - 1 && Strptime(s, fmts[1..][i]) == r
                   && forall j :: 0 <= j < i ==> Strptime(s, fmts[1..][j]).None?;
          assert Strptime(s, fmts[i + 1]) == r;
          assert forall j :: 0 <= j < i + 1 ==> Strptime(s, fmts[j]).None? by {
            forall j | 0 <= j < i + 1 ensures Strptime(s, fmts[j]).None? {
              if j > 0 { assert fmts[j] == fmts[1..][j - 1]; }
            }
          }
        }
        if exists i :: 0 <= i < |fmts| && Strptime(s, fmts[i]).Some? {
          var i :| 0 <= i < |fmts| && Strptime(s, fmts[i]).Some?;
          assert Strptime(s, fmts[1..][i - 1]).Some?;
        }
      }
    }
  }

  // ---------------------------------------------------------------- strftime

  /** `n` in decimal, left-padded with zeros to at least `w` digits (strftime's %Y, %m, %d). */
  function Padded(n: nat, w: nat): (s: string)
    ensures IsDigits(s) && |s| >= w
  {
    var t := NatToString(n);
    if |t| < w then Zeros(w - |t|) + t else t
  }

  /** `strftime("%Y-%m-%d")`. */
  function FormatIso(d: Date): (s: string)
    requires ValidDate(d)
    ensures |s| == 10 && s[4] == '-' && s[7] == '-'
    ensures forall i :: 0 <= i < 10 && i != 4 && i != 7 ==> IsDigit(s[i])
  {
    PaddedLength(d.year, 4);
    PaddedLength(d.month, 2);
    PaddedLength(d.day, 2);
    Padded(d.year, 4) + "-" + Padded(d.month, 2) + "-" + Padded(d.day, 2)
  }

  lemma {:induction false} NatToStringLength(n: nat, w: nat)
    requires n < Pow10(w)
    ensures |NatToString(n)| <= if w == 0 then 1 else w
  {
    if n >= 10 {
      NatToStringLength(n / 10, w - 1);
    }
  }

  function Pow10(w: nat): (p: nat)
    ensures p >= 1
  {
    if w == 0 then 1 else 10 * Pow10(w - 1)
  }

  lemma PaddedLength(n: nat, w: nat)
    requires 1 <= w && n < Pow10(w)
    ensures |Padded(n, w)| == w
  {
    NatToStringLength(n, w);
  }

  lemma {:induction false} ZerosValue(n: nat)
    ensures DigitsValue(Zeros(n)) == 0
  {
    if n > 0 {
      assert Zeros(n)[..n - 1] == Zeros(n - 1);
      ZerosValue(n - 1);
    }
  }

  lemma {:induction false} LeadingZerosValue(z: nat, t: string)
    requires forall i :: 0 <= i < |t| ==> IsDigit(t[i])
    ensures DigitsValue(Zeros(z) + t) == DigitsValue(t)
  {
    if t == [] {
      assert Zeros(z) + t == Zeros(z);
      ZerosValue(z);
    } else {
      var u := Zeros(z) + t;
      assert u[..|u| - 1] == Zeros(z) + t[..|t| - 1];
      LeadingZerosValue(z, t[..|t| - 1]);
    }
  }

  /** Reading the padded digits back gives the number. */
  lemma PaddedValue(n: nat, w: nat)
    ensures DigitsValue(Padded(n, w)) == n
  {
    var t := NatToString(n);
    NatToStringValue(n);
    if |t| < w {
      LeadingZerosValue(w - |t|, t);
    }
  }

  lemma {:induction false} DigitRunOfDigits(a: string, b: string)
    requires IsDigits(a) && (b == [] || !IsDigit(b[0]))
    ensures DigitRun(a + b) == |a|
  {
    if |a| == 1 {
      assert (a + b)[1..] == b;
    } else {
      assert (a + b)[1..] == a[1..] + b;
      DigitRunOfDigits(a[1..], b);
    }
  }

  lemma MatchLitStep(c: char, rest: string, fmt: Format, acc: Date)
    ensures Match([c] + rest, [Lit(c)] + fmt, acc) == Match(rest, fmt, acc)
  {
    assert ([c] + rest)[1..] == rest && ([Lit(c)] + fmt)[1..] == fmt;
  }

  lemma MatchYearStep(a: string, rest: string, fmt: Format, acc: Date)
    requires IsDigits(a) && |a| == 4 && (rest == [] || !IsDigit(rest[0]))
    ensures Match(a + rest, [Year] + fmt, acc) == Match(rest, fmt, acc.(year := DigitsValue(a)))
  {
    DigitRunOfDigits(a, rest);
    assert (a + rest)[..4] == a && (a + rest)[4..] == rest && ([Year] + fmt)[1..] == fmt;
  }

  lemma MatchMonthStep(a: string, rest: string, fmt: Format, acc: Date)
    requires AcceptsMonth(a) && (rest == [] || !IsDigit(rest[0]))
    ensures Match(a + rest, [Month] + fmt, acc) == Match(rest, fmt, acc.(month := DigitsValue(a)))
  {
    DigitRunOfDigits(a, rest);
    assert (a + rest)[..|a|] == a && (a + rest)[|a|..] == rest && ([Month] + fmt)[1..] == fmt;
  }

  lemma MatchDayStep(a: string, rest: string, fmt: Format, acc: Date)
    requires AcceptsDay(a) && (rest == [] || !IsDigit(rest[0]))
    ensures Match(a + rest, [Day] + fmt, acc) == Match(rest, fmt, acc.(day := DigitsValue(a)))
  {
    DigitRunOfDigits(a, rest);
    assert (a + rest)[0] == a[0] && IsDigit(a[0]);
    assert (a + rest)[..|a|] == a && (a + rest)[|a|..] == rest && ([Day] + fmt)[1..] == fmt;
  }

  /** Four year digits, a month and a day, joined by dashes, match "%Y-%m-%d". */
  lemma MatchIso(y: string, m: string, dd: string, acc: Date)
    requires IsDigits(y) && |y| == 4 && AcceptsMonth(m) && AcceptsDay(dd)
    ensures Match(y + "-" + m + "-" + dd, IsoFormat, acc)
            == Some(Date(DigitsValue(y), DigitsValue(m), DigitsValue(dd)))
  {
    var a1 := acc.(year := DigitsValue(y));
    var a2 := a1.(month := DigitsValue(m));
    assert y + "-" + m + "-" + dd == y + ("-" + (m + ("-" + (dd + []))));
    assert IsoFormat == [Year] + ([Lit('-')] + ([Month] + ([Lit('-')] + ([Day] + []))));
    MatchYearStep(y, "-" + (m + ("-" + (dd + []))), [Lit('-')] + ([Month] + ([Lit('-')] + ([Day] + []))), acc);
    MatchLitStep('-', m + ("-" + (dd + [])), [Month] + ([Lit('-')] + ([Day] + [])), a1);
    MatchMonthStep(m, "-" + (dd + []), [Lit('-')] + ([Day] + []), a1);
    MatchLitStep('-', dd + [], [Day] + [], a2);
    MatchDayStep(dd, [], [], a2);
  }

  /** Formatting a valid date and reading it back with "%Y-%m-%d" gives the same date. */
  lemma IsoRoundTrip(d: Date)
    requires ValidDate(d)
    ensures Strptime(FormatIso(d), IsoFormat) == Some(d)
  {
    var y, m, dd := Padded(d.year, 4), Padded(d.month, 2), Padded(d.day, 2);
    PaddedLength(d.year, 4);
    PaddedLength(d.month, 2);
    PaddedLength(d.day, 2);
    PaddedValue(d.year, 4);
    PaddedValue(d.month, 2);
    PaddedValue(d.day, 2);
    assert AcceptsMonth(m) && AcceptsDay(dd);
    MatchIso(y, m, dd, Date(1900, 1, 1));
  }

  /** An ISO string the importers produce passes the "%Y-%m-%d" check. */
  lemma FormatIsoIsIsoDate(d: Date)
    requires ValidDate(d)
    ensures IsIsoDate(FormatIso(d))
  {
    IsoRoundTrip(d);
  }

  // ---------------------------------------------------------------- day arithmetic

  /** The following day, None past 9999-12-31 (Python's OverflowError). */
  function NextDay(d: Date): (r: Option<Date>)
    requires ValidDate(d)
    ensures r.Some? ==> ValidDate(r.value) && Before(d, r.value)
    ensures r.None? <==> d == Date(9999, 12, 31)
  {
    if d.day < DaysInMonth(d.year, d.month) then Some(d.(day := d.day + 1))
    else if d.month < 12 then Some(Date(d.year, d.month + 1, 1))
    else if d.year < 9999 then Some(Date(d.year + 1, 1, 1))
    else None
  }

  /** The preceding day, None before 0001-01-01. */
  function PrevDay(d: Date): (r: Option<Date>)
    requires ValidDate(d)
    ensures r.Some? ==> ValidDate(r.value) && Before(r.value, d)
    ensures r.None? <==> d == Date(1, 1, 1)
  {
    if d.day > 1 then Some(d.(day := d.day - 1))
    else if d.month > 1 then Some(Date(d.year, d.month - 1, DaysInMonth(d.year, d.month - 1)))
    else if d.year > 1 then Some(Date(d.year - 1, 12, 31))
    else None
  }

  /** Stepping forward and back returns to the same day. */
  lemma NextPrev(d: Date)
    requires ValidDate(d) && NextDay(d).Some?
    ensures PrevDay(NextDay(d).value) == Some(d)
  {
  }

  /** `d + timedelta(days=n)`; None when the result leaves the representable range. */
  function AddDays(d: Date, n: int): (r: Option<Date>)
    requires ValidDate(d)
    ensures r.Some? ==> ValidDate(r.value)
    ensures r.Some? && n > 0 ==> Before(d, r.value)
    ensures r.Some? && n < 0 ==> Before(r.value, d)
    decreases Abs(n)
  {
    if n == 0 then Some(d)
    else if n > 0 then
      match NextDay(d)
      case Some(e) => AddDays(e, n - 1)
      case None => None
    else
      match PrevDay(d)
      case Some(e) => AddDays(e, n + 1)
      case None => None
  }

  const SerialEpoch: Date := Date(1899, 12, 30)

  /** `datetime(1899, 12, 30) + timedelta(days=n)`: the calendar date of spreadsheet serial number `n`. */
  function SerialDate(n: int): (r: Option<Date>)
    ensures r.Some? ==> ValidDate(r.value)
    ensures r.Some? && n > 0 ==> Before(SerialEpoch, r.value)
  {
    AddDays(SerialEpoch, n)
  }

  /** Serial 1 is the last day of 1899 and serial 2 is the first day of 1900. */
  lemma SerialOne()
    ensures SerialDate(1) == Some(Date(1899, 12, 31)) && SerialDate(2) == Some(Date(1900, 1, 1))
  {
  }
}
