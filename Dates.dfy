/**
 * `datetime.strptime(t, '%Y%m%d').strftime('%Y-%m-%d')`, as the log extractor applies it
 * to the first eight characters of a file name's second dot-token.
 *
 * CPython's `_strptime` compiles '%Y%m%d' to the regular expression
 *   (\d\d\d\d)(1[0-2]|0[1-9]|[1-9])(3[01]|[12]\d|0[1-9]|[1-9]| [1-9])
 * applies it with `re.match` (the first match in the alternatives' priority order,
 * backtracking into the month only when no day alternative fits), raises
 * "unconverted data remains" when that match stops short of the end, and finally
 * raises when the year, month and day do not form a calendar date.
 */
module Dates {
  import opened Wrappers

  datatype Date = Date(year: int, month: int, day: int)

  predicate IsDigit(c: char)
  {
    '0' <= c <= '9'
  }

  predicate AllDigits(s: string)
  {
    forall i :: 0 <= i < |s| ==> IsDigit(s[i])
  }

  /** `int(s)` for a string of ASCII digits. */
  function Number(s: string): nat
    requires AllDigits(s)
  {
    if |s| == 0 then 0 else 10 * Number(s[..|s| - 1]) + (s[|s| - 1] as int - '0' as int)
  }

  predicate IsLeapYear(y: int)
  {
    y % 4 == 0 && (y % 100 != 0 || y % 400 == 0)
  }

  function DaysInMonth(y: int, m: int): int
    requires 1 <= m <= 12
  {
    if m == 2 then (if IsLeapYear(y) then 29 else 28)
    else if m == 4 || m == 6 || m == 9 || m == 11 then 30
    else 31
  }

  /** What `datetime.date(y, m, d)` accepts. */
  predicate ValidDate(d: Date)
  {
    1 <= d.year <= 9999 && 1 <= d.month <= 12 && 1 <= d.day <= DaysInMonth(d.year, d.month)
  }

  /** The text a day alternative can capture: one digit, two digits, or a space and a digit. */
  predicate DayText(t: string)
  {
    (|t| == 1 && IsDigit(t[0])) || (|t| == 2 && (t[0] == ' ' || IsDigit(t[0])) && IsDigit(t[1]))
  }

  /** Widths of the alternatives of `1[0-2]|0[1-9]|[1-9]` that match `s` at `p`, in priority order. */
  function MonthWidths(s: string, p: nat): (ws: seq<nat>)
    ensures forall i :: 0 <= i < |ws| ==> 1 <= ws[i] <= 2 && p + ws[i] <= |s| && AllDigits(s[p..p + ws[i]])
  {
    (if p + 2 <= |s| && s[p] == '1' && '0' <= s[p + 1] <= '2' then [2] else [])
    + (if p + 2 <= |s| && s[p] == '0' && '1' <= s[p + 1] <= '9' then [2] else [])
    + (if p + 1 <= |s| && '1' <= s[p] <= '9' then [1] else [])
  }

  /** Widths of the alternatives of `3[01]|[12]\d|0[1-9]|[1-9]| [1-9]` that match `s` at `q`, in priority order. */
  function DayWidths(s: string, q: nat): (ws: seq<nat>)
    ensures forall i :: 0 <= i < |ws| ==> 1 <= ws[i] <= 2 && q + ws[i] <= |s| && DayText(s[q..q + ws[i]])
  {
    (if q + 2 <= |s| && s[q] == '3' && '0' <= s[q + 1] <= '1' then [2] else [])
    + (if q + 2 <= |s| && '1' <= s[q] <= '2' && IsDigit(s[q + 1]) then [2] else [])
    + (if q + 2 <= |s| && s[q] == '0' && '1' <= s[q + 1] <= '9' then [2] else [])
    + (if q + 1 <= |s| && '1' <= s[q] <= '9' then [1] else [])
    + (if q + 2 <= |s| && s[q] == ' ' && '1' <= s[q + 1] <= '9' then [2] else [])
  }

  /**
   * The regular expression's first match after the four year digits, trying the month
   * alternatives `months` from position `k` on, where `days(w)` lists the day
   * alternatives that match after a month of width `w`: the position of the first month
   * alternative that some day alternative can follow, with the width of the first such
   * day alternative.
   */
  function FirstMatch(months: seq<nat>, days: nat -> seq<nat>, k: nat): (r: Option<(nat, nat)>)
    ensures r.Some? ==> k <= r.value.0 < |months|
    ensures r.Some? ==> days(months[r.value.0]) != [] && r.value.1 == days(months[r.value.0])[0]
    ensures r.Some? ==> forall i :: k <= i < r.value.0 ==> days(months[i]) == []
    ensures r.None? ==> forall i :: k <= i < |months| ==> days(months[i]) == []
    decreases |months| - k
  {
    if k >= |months| then None
    else if days(months[k]) != [] then Some((k, days(months[k])[0]))
    else FirstMatch(months, days, k + 1)
  }

  /** The day alternatives that match in `t` after the year and a month of width `w`. */
  function DaysAfter(t: string): nat -> seq<nat>
  {
    w => DayWidths(t, 4 + w)
  }

  /** `int(t)` for the text the day group captured: digits, or a space and a digit. */
  function DayValue(t: string): nat
    requires DayText(t)
  {
    if t[0] == ' ' then Number(t[1..]) else Number(t)
  }

  /** `datetime.strptime(t, '%Y%m%d')`: the date, or None where it raises ValueError. */
  function Strptime(t: string): (r: Option<Date>)
    ensures r.Some? ==> ValidDate(r.value)
  {
    if |t| < 4 || !AllDigits(t[..4]) then None
    else
      var months := MonthWidths(t, 4);
      match FirstMatch(months, DaysAfter(t), 0)
      case None => None
      case Some((j, wd)) =>
        var wm := months[j];
        if 4 + wm + wd != |t| then None
        else
          assert DaysAfter(t)(wm) == DayWidths(t, 4 + wm);
          assert t[4 + wm..] == t[4 + wm..4 + wm + wd];
          FieldsDate(t, wm)
  }

  /** The date whose year, month and day fields are `t[..4]`, `t[4..4 + wm]` and the rest, when it is one. */
  function FieldsDate(t: string, wm: nat): (r: Option<Date>)
    requires 4 + wm <= |t| && AllDigits(t[..4]) && AllDigits(t[4..4 + wm]) && DayText(t[4 + wm..])
    ensures r.Some? ==> ValidDate(r.value)
  {
    var d := Date(Number(t[..4]), Number(t[4..4 + wm]), DayValue(t[4 + wm..]));
    if ValidDate(d) then Some(d) else None
  }

  /**
   * Only digits and spaces get through: an accepted token has six to eight characters
   * (four year digits, a one- or two-digit month, a one- or two-character day), and any
   * other character makes the parse fail.
   */
  lemma AcceptedChars(t: string)
    requires Strptime(t).Some?
    ensures 6 <= |t| <= 8
    ensures forall i :: 0 <= i < |t| ==> IsDigit(t[i]) || t[i] == ' '
  {
    assert |t| >= 4 && AllDigits(t[..4]);
    var months := MonthWidths(t, 4);
    var m := FirstMatch(months, DaysAfter(t), 0);
    assert m.Some?;
    var wm, wd := months[m.value.0], m.value.1;
    assert DaysAfter(t)(wm) == DayWidths(t, 4 + wm);
    assert 4 + wm + wd == |t|;
    FieldChars(t, wm, wd);
  }

  /** The characters of a year, a month field of width `wm` and a day field of width `wd`. */
  lemma FieldChars(t: string, wm: nat, wd: nat)
    requires 1 <= wm <= 2 && 4 + wm + wd == |t| && AllDigits(t[..4]) && AllDigits(t[4..4 + wm]) && DayText(t[4 + wm..4 + wm + wd])
    ensures 6 <= |t| <= 8
    ensures forall i :: 0 <= i < |t| ==> IsDigit(t[i]) || t[i] == ' '
  {
    forall i | 0 <= i < |t| ensures IsDigit(t[i]) || t[i] == ' ' {
      if i < 4 {
        assert t[i] == t[..4][i];
      } else if i < 4 + wm {
        assert t[i] == t[4..4 + wm][i - 4];
      } else {
        assert t[i] == t[4 + wm..4 + wm + wd][i - 4 - wm];
      }
    }
  }

  function DigitChar(n: nat): char
    requires n < 10
  {
    ('0' as int + n) as char
  }

  /** `n` written with exactly `width` digits, zero-padded. */
  function Padded(n: nat, width: nat): (s: string)
    requires n < Power10(width)
    ensures |s| == width && AllDigits(s) && Number(s) == n
  {
    if width == 0 then ""
    else
      assert n / 10 < Power10(width - 1);
      var init := Padded(n / 10, width - 1);
      var c := DigitChar(n % 10);
      var s := init + [c];
      assert s[..|s| - 1] == init;
      assert c as int - '0' as int == n % 10;
      s
  }

  function Power10(k: nat): nat
  {
    if k == 0 then 1 else 10 * Power10(k - 1)
  }

  /** `date.strftime('%Y-%m-%d')`, with the year zero-padded to four digits. */
  function Strftime(d: Date): (s: string)
    requires ValidDate(d)
    ensures |s| == 10 && s[4] == '-' && s[7] == '-'
    ensures AllDigits(s[..4]) && AllDigits(s[5..7]) && AllDigits(s[8..])
    ensures Number(s[..4]) == d.year && Number(s[5..7]) == d.month && Number(s[8..]) == d.day
  {
    var s := Padded(d.year, 4) + "-" + Padded(d.month, 2) + "-" + Padded(d.day, 2);
    assert s[..4] == Padded(d.year, 4) && s[5..7] == Padded(d.month, 2) && s[8..] == Padded(d.day, 2);
    s
  }

  /** Two-digit fields: the value of `s[i..i + 2]`. */
  lemma TwoDigits(s: string, i: nat)
    requires i + 2 <= |s| && IsDigit(s[i]) && IsDigit(s[i + 1])
    ensures AllDigits(s[i..i + 2])
    ensures Number(s[i..i + 2]) == 10 * (s[i] as int - '0' as int) + (s[i + 1] as int - '0' as int)
  {
    var t := s[i..i + 2];
    assert t[..1] == [s[i]] && t[..1][..0] == [] && t[1] == s[i + 1];
    assert Number(t[..1]) == s[i] as int - '0' as int;
    assert Number(t) == 10 * Number(t[..|t| - 1]) + (t[|t| - 1] as int - '0' as int);
  }

  /** A month field 01..12 matches as two characters, ahead of the one-digit alternative. */
  lemma TwoDigitMonth(t: string, p: nat)
    requires p + 2 <= |t| && IsDigit(t[p]) && IsDigit(t[p + 1])
    requires 1 <= 10 * (t[p] as int - '0' as int) + (t[p + 1] as int - '0' as int) <= 12
    ensures MonthWidths(t, p) != [] && MonthWidths(t, p)[0] == 2
  {
  }

  /** A day field 01..31 matches as two characters, ahead of the one-digit alternative. */
  lemma TwoDigitDay(t: string, q: nat)
    requires q + 2 <= |t| && IsDigit(t[q]) && IsDigit(t[q + 1])
    requires 1 <= 10 * (t[q] as int - '0' as int) + (t[q + 1] as int - '0' as int) <= 31
    ensures DayWidths(t, q) != [] && DayWidths(t, q)[0] == 2
  {
  }

  /** The date an eight-digit token YYYYMMDD denotes, valid or not. */
  function DigitsDate(t: string): Date
    requires |t| == 8 && AllDigits(t)
  {
    assert AllDigits(t[..4]) && AllDigits(t[4..6]) && AllDigits(t[6..]);
    Date(Number(t[..4]), Number(t[4..6]), Number(t[6..]))
  }

  /** An eight-digit token that denotes a calendar date is accepted as that date. */
  lemma EightDigitAccepted(t: string)
    requires |t| == 8 && AllDigits(t) && ValidDate(DigitsDate(t))
    ensures Strptime(t) == Some(DigitsDate(t))
  {
    TwoDigits(t, 4);
    TwoDigits(t, 6);
    assert t[6..] == t[6..8];
    TwoDigitMonth(t, 4);
    TwoDigitDay(t, 6);
    var months := MonthWidths(t, 4);
    assert FirstMatch(months, DaysAfter(t), 0) == Some((0, 2));
    assert t[4 + 2..] == t[6..];
  }

  /** An eight-digit token is only ever accepted as the date its digits denote. */
  lemma EightDigitParsed(t: string)
    requires |t| == 8 && AllDigits(t) && Strptime(t).Some?
    ensures Strptime(t).value == DigitsDate(t)
  {
    assert AllDigits(t[..4]);
    var months := MonthWidths(t, 4);
    var m := FirstMatch(months, DaysAfter(t), 0);
    assert m.Some? && months[m.value.0] + m.value.1 == 4;
    assert t[4 + 2..] == t[6..];
  }

  /**
   * An eight-digit token is accepted exactly when it reads as a calendar date
   * YYYYMMDD, and then it is rendered as YYYY-MM-DD.
   */
  lemma EightDigitToken(t: string)
    requires |t| == 8 && AllDigits(t)
    ensures Strptime(t).Some? <==> ValidDate(DigitsDate(t))
    ensures Strptime(t).Some? ==> Strptime(t).value == DigitsDate(t)
                                  && Strftime(Strptime(t).value) == t[..4] + "-" + t[4..6] + "-" + t[6..]
  {
    if Strptime(t).Some? {
      EightDigitParsed(t);
      StrftimeInverse(DigitsDate(t), t);
    }
    if ValidDate(DigitsDate(t)) {
      EightDigitAccepted(t);
    }
  }

  /** Equal digit strings have equal numbers and vice versa. */
  lemma {:induction false} NumberInjective(a: string, b: string)
    requires |a| == |b| && AllDigits(a) && AllDigits(b) && Number(a) == Number(b)
    ensures a == b
  {
    if |a| > 0 {
      var a', b' := a[..|a| - 1], b[..|b| - 1];
      assert Number(a) == 10 * Number(a') + (a[|a| - 1] as int - '0' as int);
      assert Number(b) == 10 * Number(b') + (b[|b| - 1] as int - '0' as int);
      NumberInjective(a', b');
      assert a == a' + [a[|a| - 1]] && b == b' + [b[|b| - 1]];
    }
  }

  /** Rendering a date read from eight digits gives back those digits, punctuated. */
  lemma StrftimeInverse(d: Date, t: string)
    requires ValidDate(d) && |t| == 8 && AllDigits(t)
    requires d == DigitsDate(t)
    ensures Strftime(d) == t[..4] + "-" + t[4..6] + "-" + t[6..]
  {
    var s := Strftime(d);
    assert AllDigits(t[..4]) && AllDigits(t[4..6]) && AllDigits(t[6..]);
    NumberInjective(s[..4], t[..4]);
    NumberInjective(s[5..7], t[4..6]);
    NumberInjective(s[8..], t[6..]);
    assert s == s[..4] + "-" + s[5..7] + "-" + s[8..];
  }

  /** The eight-digit form YYYYMMDD of a date. */
  function Compact(d: Date): (t: string)
    requires ValidDate(d)
  {
    Padded(d.year, 4) + Padded(d.month, 2) + Padded(d.day, 2)
  }

  /** Writing a date as YYYYMMDD and parsing it back gives the same date. */
  lemma CompactRoundTrip(d: Date)
    requires ValidDate(d)
    ensures Strptime(Compact(d)) == Some(d)
  {
    var t := Compact(d);
    assert t[..4] == Padded(d.year, 4) && t[4..6] == Padded(d.month, 2) && t[6..] == Padded(d.day, 2);
    EightDigitToken(t);
  }

  /** A token of seven characters with one-digit month or day fields can still be accepted. */
  lemma SevenCharacterToken()
    ensures Strptime("2024115") == Some(Date(2024, 11, 5))
  {
    assert AllDigits("2024115"[..4]);
    assert "2024115"[..4] == "2024";
    assert Number("2024") == 2024 by {
      assert "2024"[..3] == "202" && "202"[..2] == "20" && "20"[..1] == "2" && "2"[..0] == "";
    }
    assert "2024115"[4..6] == "11";
    TwoDigits("2024115", 4);
    assert MonthWidths("2024115", 4) == [2, 1];
    assert DayWidths("2024115", 6) == [1];
    assert FirstMatch([2, 1], DaysAfter("2024115"), 0) == Some((0, 1));
    assert "2024115"[6..] == "5";
    assert "5"[..0] == "";
  }
}
