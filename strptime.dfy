/** `datetime.strptime` for the directives the parser's formats use. Python compiles a format into
    a regular expression (one group of alternatives per directive), matches it at the start of the
    text, raises `ValueError` when it does not match or when characters are left over, and then
    builds a `datetime` from the fields, defaulting the missing ones to 1900-01-01 00:00:00; the
    constructor raises `ValueError` for a date or second that does not exist. */
module Strptime {
  import opened Wrappers
  import opened Text
  import opened Calendar

  datatype Directive = Year | Month | Day | Hour | Minute | Second | Lit(c: char)

  type Format = seq<Directive>

  /** `DATE_FORMATS`: "%d.%m", "%d.%m.", "%d.%m.%Y", "%d..%m", "%d..%m.%Y". */
  const DateFormats: seq<Format> := [
    [Day, Lit('.'), Month],
    [Day, Lit('.'), Month, Lit('.')],
    [Day, Lit('.'), Month, Lit('.'), Year],
    [Day, Lit('.'), Lit('.'), Month],
    [Day, Lit('.'), Lit('.'), Month, Lit('.'), Year]
  ]

  /** `TIME_FORMATS`: "%H:%M", "%H". */
  const TimeFormats: seq<Format> := [[Hour, Lit(':'), Minute], [Hour]]

  /** "%Y-%m-%dT%H:%M:%S", the format of the validity timestamps. */
  const IsoFormat: Format :=
    [Year, Lit('-'), Month, Lit('-'), Day, Lit('T'), Hour, Lit(':'), Minute, Lit(':'), Second]

  /** The fields before any directive sets one. */
  const Defaults: DateTime := DateTime(1900, 1, 1, 0, 0, 0)

  function Val(c: char): int
    requires IsDigit(c)
  {
    c as int - '0' as int
  }

  /** Two characters at the start of `s`, the first in `lo0..hi0`, the second in `lo1..hi1`. */
  predicate PairIn(s: string, lo0: char, hi0: char, lo1: char, hi1: char) {
    |s| >= 2 && lo0 <= s[0] <= hi0 && lo1 <= s[1] <= hi1
  }

  /** A two-digit alternative that matches, as (characters consumed, value). */
  function Two(s: string, matches: bool): (r: seq<(nat, int)>)
    requires matches ==> |s| >= 2 && IsDigit(s[0]) && IsDigit(s[1])
  {
    if matches then [(2, 10 * Val(s[0]) + Val(s[1]))] else []
  }

  /** The one-digit alternative `[lo-9]`. */
  function One(s: string, lo: char): (r: seq<(nat, int)>)
    requires '0' <= lo <= '9'
  {
    if |s| >= 1 && lo <= s[0] <= '9' then [(1, Val(s[0]))] else []
  }

  /** The ways the group `_strptime` compiles for directive `d` can match at the start of `s`,
      in the order the regex engine tries them, as (characters consumed, value):
      %Y `\d\d\d\d`, %m `1[0-2]|0[1-9]|[1-9]`, %d `3[01]|[12]\d|0[1-9]|[1-9]| [1-9]`,
      %H `2[0-3]|[0-1]\d|\d`, %M `[0-5]\d|\d`, %S `6[0-1]|[0-5]\d|\d`. */
  function Candidates(d: Directive, s: string): (r: seq<(nat, int)>)
    requires !d.Lit?
    ensures forall c | c in r :: 1 <= c.0 <= |s|
  {
    match d
    case Year =>
      if |s| >= 4 && IsDigit(s[0]) && IsDigit(s[1]) && IsDigit(s[2]) && IsDigit(s[3])
      then [(4, 1000 * Val(s[0]) + 100 * Val(s[1]) + 10 * Val(s[2]) + Val(s[3]))]
      else []
    case Month =>
      Two(s, PairIn(s, '1', '1', '0', '2') || PairIn(s, '0', '0', '1', '9')) + One(s, '1')
    case Day =>
      Two(s, PairIn(s, '3', '3', '0', '1') || PairIn(s, '1', '2', '0', '9') || PairIn(s, '0', '0', '1', '9'))
      + One(s, '1')
      + (if PairIn(s, ' ', ' ', '1', '9') then [(2, Val(s[1]))] else [])
    case Hour =>
      Two(s, PairIn(s, '2', '2', '0', '3') || PairIn(s, '0', '1', '0', '9')) + One(s, '0')
    case Minute =>
      Two(s, PairIn(s, '0', '5', '0', '9')) + One(s, '0')
    case Second =>
      Two(s, PairIn(s, '6', '6', '0', '1') || PairIn(s, '0', '5', '0', '9')) + One(s, '0')
  }

  /** The field directive `d` sets. */
  function Set(acc: DateTime, d: Directive, v: int): DateTime
    requires !d.Lit?
  {
    match d
    case Year => acc.(year := v)
    case Month => acc.(month := v)
    case Day => acc.(day := v)
    case Hour => acc.(hour := v)
    case Minute => acc.(minute := v)
    case Second => acc.(second := v)
  }

  /** A literal character of the format; the pattern is compiled with IGNORECASE. */
  predicate SameChar(a: char, lit: char) {
    || a == lit
    || ('A' <= lit <= 'Z' && a as int == lit as int + 32)
    || ('a' <= lit <= 'z' && a as int == lit as int - 32)
  }

  /** The regex match of `fmt` at the start of `s`: the fields it sets (on top of `acc`) and the
      text it leaves over. A directive tries its alternatives in order and keeps the first one
      with which the rest of the format matches (backtracking). */
  function Match(fmt: Format, s: string, acc: DateTime): Option<(DateTime, string)>
    decreases |fmt|, 1
  {
    if fmt == [] then Some((acc, s))
    else if fmt[0].Lit? then
      if |s| > 0 && SameChar(s[0], fmt[0].c) then Match(fmt[1..], s[1..], acc) else None
    else TryCandidates(fmt, s, acc, Candidates(fmt[0], s))
  }

  function TryCandidates(fmt: Format, s: string, acc: DateTime, cands: seq<(nat, int)>): Option<(DateTime, string)>
    requires fmt != [] && !fmt[0].Lit?
    requires forall c | c in cands :: c.0 <= |s|
    decreases |fmt|, 0, |cands|
  {
    if cands == [] then None
    else match Match(fmt[1..], s[cands[0].0..], Set(acc, fmt[0], cands[0].1))
      case Some(res) => Some(res)
      case None => TryCandidates(fmt, s, acc, cands[1..])
  }

  /** `datetime.strptime(s, fmt)`, `None` standing for the `ValueError`. */
  function Parse(fmt: Format, s: string): (r: Option<DateTime>)
    ensures r.Some? ==> Valid(r.value)
  {
    match Match(fmt, s, Defaults)
    case Some((dt, rest)) => if rest == [] && Valid(dt) then Some(dt) else None
    case None => None
  }

  /** The first format of `fmts` under which `s` parses: a `for` loop over the formats whose body
      `break`s on the first `strptime` that does not raise. */
  function FirstParse(fmts: seq<Format>, s: string): (r: Option<DateTime>)
    ensures r.Some? ==> Valid(r.value)
  {
    if fmts == [] then None
    else match Parse(fmts[0], s)
      case Some(dt) => Some(dt)
      case None => FirstParse(fmts[1..], s)
  }

  /** The loop over formats fails exactly when every format raises, and otherwise gives the
      result of the first format that does not. */
  lemma {:induction false} FirstParseIsFirst(fmts: seq<Format>, s: string)
    ensures FirstParse(fmts, s).None? <==> forall i | 0 <= i < |fmts| :: Parse(fmts[i], s).None?
    ensures FirstParse(fmts, s).Some? ==> exists i | 0 <= i < |fmts| ::
      Parse(fmts[i], s) == FirstParse(fmts, s) && forall j | 0 <= j < i :: Parse(fmts[j], s).None?
  {
    if fmts != [] && Parse(fmts[0], s).None? {
      FirstParseIsFirst(fmts[1..], s);
      assert forall i | 1 <= i < |fmts| :: fmts[i] == fmts[1..][i - 1];
      if FirstParse(fmts, s).Some? {
        var i :| 0 <= i < |fmts[1..]| && Parse(fmts[1..][i], s) == FirstParse(fmts, s)
          && forall j | 0 <= j < i :: Parse(fmts[1..][j], s).None?;
        assert Parse(fmts[i + 1], s) == FirstParse(fmts, s);
      }
    } else if fmts != [] {
      assert Parse(fmts[0], s) == FirstParse(fmts, s);
    }
  }
}

/** What the formats the parser uses make of the tokens its duration patterns capture. */
module StrptimeTokens {
  import opened Wrappers
  import opened Text
  import opened Calendar
  import opened Strptime

  /** `[0-9]{1,2}` */
  predicate IsHours(t: string) {
    (|t| == 1 || |t| == 2) && IsDigit(t[0]) && IsDigit(t[|t| - 1])
  }

  /** The value of one or two digits. */
  function NumberOf(t: string): (n: int)
    requires IsHours(t)
    ensures 0 <= n <= 99 && (|t| == 1 ==> n <= 9)
  {
    if |t| == 1 then Val(t[0]) else 10 * Val(t[0]) + Val(t[1])
  }

  /** `[0-9]{1,2}:[0-9]{2}` */
  predicate IsClock(t: string) {
    (|t| == 4 || |t| == 5) && IsHours(t[..|t| - 3]) && t[|t| - 3] == ':' && IsDigit(t[|t| - 2]) && IsDigit(t[|t| - 1])
  }

  /** `[0-9]{1,2}\.[0-9]{2}` */
  predicate IsDayMonth(t: string) {
    (|t| == 4 || |t| == 5) && IsHours(t[..|t| - 3]) && t[|t| - 3] == '.' && IsDigit(t[|t| - 2]) && IsDigit(t[|t| - 1])
  }

  /** The number before the separator of a clock or date token. */
  function Major(t: string): int
    requires IsClock(t) || IsDayMonth(t)
  {
    NumberOf(t[..|t| - 3])
  }

  /** The two digits after the separator. */
  function Minor(t: string): int
    requires IsClock(t) || IsDayMonth(t)
  {
    10 * Val(t[|t| - 2]) + Val(t[|t| - 1])
  }

  /** `%M` on two digits: both when the first is at most 5, otherwise only the first. */
  lemma MinuteOnTwoDigits(u: string, acc: DateTime)
    requires |u| == 2 && IsDigit(u[0]) && IsDigit(u[1])
    ensures Match([Minute], u, acc) ==
      if u[0] <= '5' then Some((acc.(minute := 10 * Val(u[0]) + Val(u[1])), []))
      else Some((acc.(minute := Val(u[0])), u[1..]))
  {
    var cands := Candidates(Minute, u);
    if u[0] <= '5' {
      assert cands[0] == (2, 10 * Val(u[0]) + Val(u[1]));
      assert u[2..] == [];
    } else {
      assert cands == [(1, Val(u[0]))];
    }
  }

  /** "%H:%M" on a clock token. */
  lemma HourMinuteOnClock(t: string)
    requires IsClock(t)
    ensures Parse(TimeFormats[0], t) ==
      if Major(t) <= 23 && Minor(t) <= 59 then Some(DateTime(1900, 1, 1, Major(t), Minor(t), 0)) else None
  {
    var fmt := TimeFormats[0];
    var n := |t|;
    var cands := Candidates(Hour, t);
    var tail := [Lit(':'), Minute];
    assert fmt[1..] == tail;
    assert tail[1..] == [Minute];
    if n == 5 {
      if Major(t) <= 23 {
        assert cands[0] == (2, Major(t));
        assert t[2..][1..] == t[3..];
        MinuteOnTwoDigits(t[3..], Defaults.(hour := Major(t)));
        assert Match(fmt, t, Defaults) == Match(tail, t[2..], Defaults.(hour := Major(t)));
      } else {
        assert cands == [(1, Val(t[0]))];
        assert Match(fmt, t, Defaults) == None;
      }
    } else {
      assert cands == [(1, Val(t[0]))];
      assert t[1..][1..] == t[2..];
      MinuteOnTwoDigits(t[2..], Defaults.(hour := Major(t)));
      assert Match(fmt, t, Defaults) == Match(tail, t[1..], Defaults.(hour := Major(t)));
    }
  }

  /** "%H" on a clock token: the minutes are left over. */
  lemma HourOnClock(t: string)
    requires IsClock(t)
    ensures Parse(TimeFormats[1], t) == None
  {
    var cands := Candidates(Hour, t);
    assert cands != [] && cands[0].0 < |t|;
    assert TimeFormats[1][1..] == [];
    var rest := t[cands[0].0..];
    assert Match([], rest, Set(Defaults, Hour, cands[0].1)) == Some((Set(Defaults, Hour, cands[0].1), rest));
    assert Match(TimeFormats[1], t, Defaults) == Some((Set(Defaults, Hour, cands[0].1), rest));
  }

  /** `TIME_FORMATS` on a clock token: the hour and minute when both are in range, else nothing. */
  lemma ClockUnderTimeFormats(t: string)
    requires IsClock(t)
    ensures FirstParse(TimeFormats, t) ==
      if Major(t) <= 23 && Minor(t) <= 59 then Some(DateTime(1900, 1, 1, Major(t), Minor(t), 0)) else None
  {
    HourMinuteOnClock(t);
    HourOnClock(t);
    FirstParseIsFirst(TimeFormats, t);
  }

  /** "%H:%M" on one or two digits: the colon is missing. */
  lemma HourMinuteOnHours(t: string)
    requires IsHours(t)
    ensures Parse(TimeFormats[0], t) == None
  {
    var fmt := TimeFormats[0];
    var tail := [Lit(':'), Minute];
    assert fmt[1..] == tail;
    var cands := Candidates(Hour, t);
    forall c | c in cands ensures Match(tail, t[c.0..], Set(Defaults, Hour, c.1)) == None {
      assert c.0 == |t| || t[c.0] == t[1];
    }
    TryCandidatesAllFail(fmt, t, Defaults, cands);
  }

  /** A directive none of whose alternatives lets the rest of the format match. */
  lemma {:induction false} TryCandidatesAllFail(fmt: Format, s: string, acc: DateTime, cands: seq<(nat, int)>)
    requires fmt != [] && !fmt[0].Lit?
    requires forall c | c in cands :: c.0 <= |s|
    requires forall c | c in cands :: Match(fmt[1..], s[c.0..], Set(acc, fmt[0], c.1)) == None
    ensures TryCandidates(fmt, s, acc, cands) == None
    decreases |cands|
  {
    if cands != [] {
      TryCandidatesAllFail(fmt, s, acc, cands[1..]);
    }
  }

  /** "%H" on one or two digits: the hour when it is in range. */
  lemma HourOnHours(t: string)
    requires IsHours(t)
    ensures Parse(TimeFormats[1], t) ==
      if NumberOf(t) <= 23 then Some(DateTime(1900, 1, 1, NumberOf(t), 0, 0)) else None
  {
    var fmt := TimeFormats[1];
    assert fmt[1..] == [];
    var cands := Candidates(Hour, t);
    if |t| == 2 && NumberOf(t) <= 23 {
      assert cands[0] == (2, NumberOf(t));
      assert t[2..] == [];
      assert Match(fmt, t, Defaults) == Some((Defaults.(hour := NumberOf(t)), []));
    } else if |t| == 2 {
      assert cands == [(1, Val(t[0]))];
      assert Match(fmt, t, Defaults) == Some((Defaults.(hour := Val(t[0])), t[1..]));
    } else {
      assert cands == [(1, Val(t[0]))];
      assert t[1..] == [];
      assert Match(fmt, t, Defaults) == Some((Defaults.(hour := NumberOf(t)), []));
    }
  }

  /** `TIME_FORMATS` on one or two digits: a whole hour when it is in range, else nothing. */
  lemma HoursUnderTimeFormats(t: string)
    requires IsHours(t)
    ensures FirstParse(TimeFormats, t) ==
      if NumberOf(t) <= 23 then Some(DateTime(1900, 1, 1, NumberOf(t), 0, 0)) else None
  {
    HourMinuteOnHours(t);
    HourOnHours(t);
    FirstParseIsFirst(TimeFormats, t);
  }

  /** `%m` on two digits: both when they form a month 01 to 12, else the first when it is not 0. */
  lemma MonthOnTwoDigits(u: string, acc: DateTime)
    requires |u| == 2 && IsDigit(u[0]) && IsDigit(u[1])
    ensures var mo := 10 * Val(u[0]) + Val(u[1]);
      Match([Month], u, acc) ==
        if 1 <= mo <= 12 then Some((acc.(month := mo), []))
        else if u[0] != '0' then Some((acc.(month := Val(u[0])), u[1..]))
        else None
  {
    var cands := Candidates(Month, u);
    var mo := 10 * Val(u[0]) + Val(u[1]);
    if 1 <= mo <= 12 {
      assert cands[0] == (2, mo);
      assert u[2..] == [];
    } else if u[0] != '0' {
      assert cands == [(1, Val(u[0]))];
    } else {
      assert cands == [];
    }
  }

  /** `%m` followed by a literal dot, on two digits: the dot is never there. */
  lemma MonthThenDot(u: string, acc: DateTime, more: Format)
    requires |u| == 2 && IsDigit(u[0]) && IsDigit(u[1])
    requires more != [] && more[0] == Lit('.')
    ensures Match([Month] + more, u, acc) == None
  {
    var fmt := [Month] + more;
    assert fmt[1..] == more;
    var cands := Candidates(Month, u);
    forall c | c in cands ensures Match(more, u[c.0..], Set(acc, Month, c.1)) == None {
      assert c.0 == |u| || u[c.0] == u[1];
    }
    TryCandidatesAllFail(fmt, u, acc, cands);
  }

  /** The day a day-month token starts with, as `%d` reads it: 1 to 31. */
  predicate DayInRange(t: string)
    requires IsDayMonth(t)
  {
    1 <= Major(t) <= 31
  }

  /** "%d." followed by `more`: on a day-month token, `%d` takes the whole day or nothing. */
  lemma DayThenDot(t: string, more: Format)
    requires IsDayMonth(t)
    ensures Match([Day, Lit('.')] + more, t, Defaults) ==
      if DayInRange(t) then Match(more, t[|t| - 2..], Defaults.(day := Major(t))) else None
  {
    if |t| == 5 {
      TwoDigitDayThenDot(t, more);
    } else {
      OneDigitDayThenDot(t, more);
    }
  }

  lemma TwoDigitDayThenDot(t: string, more: Format)
    requires IsDayMonth(t) && |t| == 5
    ensures Match([Day, Lit('.')] + more, t, Defaults) ==
      if DayInRange(t) then Match(more, t[3..], Defaults.(day := Major(t))) else None
  {
    var fmt := [Day, Lit('.')] + more;
    var tail := [Lit('.')] + more;
    assert fmt[1..] == tail;
    assert tail[1..] == more;
    var cands := Candidates(Day, t);
    if DayInRange(t) {
      assert cands[0] == (2, Major(t));
      assert t[2..][1..] == t[3..];
      assert Match(tail, t[2..], Defaults.(day := Major(t))) == Match(more, t[3..], Defaults.(day := Major(t)));
      forall c | c in cands[1..] ensures Match(tail, t[c.0..], Set(Defaults, Day, c.1)) == None {
        assert c.0 == 1;
      }
      TryCandidatesAllFail(fmt, t, Defaults, cands[1..]);
    } else {
      forall c | c in cands ensures Match(tail, t[c.0..], Set(Defaults, Day, c.1)) == None {
        assert c.0 == 1;
      }
      TryCandidatesAllFail(fmt, t, Defaults, cands);
    }
  }

  lemma OneDigitDayThenDot(t: string, more: Format)
    requires IsDayMonth(t) && |t| == 4
    ensures Match([Day, Lit('.')] + more, t, Defaults) ==
      if DayInRange(t) then Match(more, t[2..], Defaults.(day := Major(t))) else None
  {
    var fmt := [Day, Lit('.')] + more;
    var tail := [Lit('.')] + more;
    assert fmt[1..] == tail;
    assert tail[1..] == more;
    var cands := Candidates(Day, t);
    if DayInRange(t) {
      assert cands == [(1, Major(t))];
      assert t[1..][1..] == t[2..];
      assert Match(tail, t[1..], Defaults.(day := Major(t))) == Match(more, t[2..], Defaults.(day := Major(t)));
      assert Match(fmt, t, Defaults) == TryCandidates(fmt, t, Defaults, cands);
    } else {
      assert cands == [];
    }
  }

  /** "%d.%m" on a day-month token. */
  lemma DayMonthFormat(t: string)
    requires IsDayMonth(t)
    ensures Parse(DateFormats[0], t) ==
      if ValidDate(1900, Minor(t), Major(t)) then Some(DateTime(1900, Minor(t), Major(t), 0, 0, 0)) else None
  {
    assert DateFormats[0] == [Day, Lit('.')] + [Month];
    DayThenDot(t, [Month]);
    MonthOnTwoDigits(t[|t| - 2..], Defaults.(day := Major(t)));
  }

  /** The other four date formats never parse a day-month token. */
  lemma OtherDateFormats(t: string, i: int)
    requires IsDayMonth(t) && 1 <= i < 5
    ensures Parse(DateFormats[i], t) == None
  {
    var u := t[|t| - 2..];
    var acc := Defaults.(day := Major(t));
    if i == 1 {
      assert DateFormats[1] == [Day, Lit('.')] + ([Month] + [Lit('.')]);
      DayThenDot(t, [Month] + [Lit('.')]);
      MonthThenDot(u, acc, [Lit('.')]);
    } else if i == 2 {
      assert DateFormats[2] == [Day, Lit('.')] + ([Month] + [Lit('.'), Year]);
      DayThenDot(t, [Month] + [Lit('.'), Year]);
      MonthThenDot(u, acc, [Lit('.'), Year]);
    } else if i == 3 {
      assert DateFormats[3] == [Day, Lit('.')] + [Lit('.'), Month];
      DayThenDot(t, [Lit('.'), Month]);
    } else {
      assert DateFormats[4] == [Day, Lit('.')] + [Lit('.'), Month, Lit('.'), Year];
      DayThenDot(t, [Lit('.'), Month, Lit('.'), Year]);
    }
  }

  /** `DATE_FORMATS` on a day-month token: only "%d.%m" can apply, and it gives that day of 1900
      when the day exists in that month of 1900. */
  lemma DayMonthUnderDateFormats(t: string)
    requires IsDayMonth(t)
    ensures FirstParse(DateFormats, t) ==
      if ValidDate(1900, Minor(t), Major(t)) then Some(DateTime(1900, Minor(t), Major(t), 0, 0, 0)) else None
  {
    DayMonthFormat(t);
    forall i | 1 <= i < 5 ensures Parse(DateFormats[i], t).None? {
      OtherDateFormats(t, i);
    }
    FirstParseIsFirst(DateFormats, t);
  }

  function Digit(d: int): (c: char)
    requires 0 <= d <= 9
    ensures IsDigit(c) && Val(c) == d
  {
    ('0' as int + d) as char
  }

  /** A number below 100 as two digits, zero-padded. */
  function Pad2(n: int): (r: string)
    requires 0 <= n <= 99
    ensures |r| == 2 && IsDigit(r[0]) && IsDigit(r[1]) && 10 * Val(r[0]) + Val(r[1]) == n
  {
    [Digit(n / 10), Digit(n % 10)]
  }

  /** A year as four digits, zero-padded. */
  function Pad4(n: int): (r: string)
    requires 0 <= n <= 9999
    ensures |r| == 4 && IsDigit(r[0]) && IsDigit(r[1]) && IsDigit(r[2]) && IsDigit(r[3])
    ensures 1000 * Val(r[0]) + 100 * Val(r[1]) + 10 * Val(r[2]) + Val(r[3]) == n
  {
    Pad2(n / 100) + Pad2(n % 100)
  }

  /** `datetime.isoformat()` of a naive datetime with no microseconds, as the feed writes its
      validity timestamps. */
  function Render(dt: DateTime): string
    requires Valid(dt)
  {
    Pad4(dt.year) + ("-" + (Pad2(dt.month) + ("-" + DayOnwardsText(dt))))
  }

  /** The part of `Render(dt)` from the day on. */
  function DayOnwardsText(dt: DateTime): string
    requires Valid(dt)
  {
    Pad2(dt.day) + ("T" + (Pad2(dt.hour) + (":" + (Pad2(dt.minute) + (":" + Pad2(dt.second))))))
  }

  /** The two-digit alternative of a directive comes first, so a zero-padded field in range is
      taken whole whenever the rest of the format then matches. */
  lemma TwoDigitStep(d: Directive, more: Format, v: int, w: string, acc: DateTime)
    requires d == Month || d == Day || d == Hour || d == Minute || d == Second
    requires d == Month ==> 1 <= v <= 12
    requires d == Day ==> 1 <= v <= 31
    requires d == Hour ==> 0 <= v <= 23
    requires d == Minute || d == Second ==> 0 <= v <= 59
    requires Match(more, w, Set(acc, d, v)).Some?
    ensures Match([d] + more, Pad2(v) + w, acc) == Match(more, w, Set(acc, d, v))
  {
    var u := Pad2(v) + w;
    assert ([d] + more)[1..] == more;
    assert u[2..] == w;
    assert Candidates(d, u)[0] == (2, v);
  }

  lemma YearStep(more: Format, v: int, w: string, acc: DateTime)
    requires 0 <= v <= 9999
    requires Match(more, w, acc.(year := v)).Some?
    ensures Match([Year] + more, Pad4(v) + w, acc) == Match(more, w, acc.(year := v))
  {
    var u := Pad4(v) + w;
    assert ([Year] + more)[1..] == more;
    assert u[4..] == w;
    assert Candidates(Year, u)[0] == (4, v);
  }

  lemma LitStep(c: char, more: Format, w: string, acc: DateTime)
    ensures Match([Lit(c)] + more, [c] + w, acc) == Match(more, w, acc)
  {
    assert ([Lit(c)] + more)[1..] == more;
    assert ([c] + w)[1..] == w;
  }

  /** ":%M:%S" after the hour, and "%S" after the minute. */
  lemma MinuteSecondPart(mi: int, sec: int, acc: DateTime)
    requires 0 <= mi <= 59 && 0 <= sec <= 59
    ensures Match(IsoFormat[8..], Pad2(mi) + ([':'] + Pad2(sec)), acc) == Some((acc.(minute := mi, second := sec), []))
  {
    var a := acc.(minute := mi);
    assert Match([], [], a.(second := sec)) == Some((a.(second := sec), []));
    assert [Second] + [] == [Second] && Pad2(sec) + [] == Pad2(sec);
    TwoDigitStep(Second, [], sec, [], a);
    LitStep(':', [Second], Pad2(sec), a);
    assert IsoFormat[9..] == [Lit(':')] + [Second];
    TwoDigitStep(Minute, IsoFormat[9..], mi, [':'] + Pad2(sec), acc);
    assert IsoFormat[8..] == [Minute] + IsoFormat[9..];
  }

  /** "%H:%M:%S" after the 'T'. */
  lemma TimePart(h: int, mi: int, sec: int, acc: DateTime)
    requires 0 <= h <= 23 && 0 <= mi <= 59 && 0 <= sec <= 59
    ensures Match(IsoFormat[6..], Pad2(h) + ([':'] + (Pad2(mi) + ([':'] + Pad2(sec)))), acc)
         == Some((acc.(hour := h, minute := mi, second := sec), []))
  {
    var a := acc.(hour := h);
    MinuteSecondPart(mi, sec, a);
    LitStep(':', IsoFormat[8..], Pad2(mi) + ([':'] + Pad2(sec)), a);
    assert IsoFormat[7..] == [Lit(':')] + IsoFormat[8..];
    TwoDigitStep(Hour, IsoFormat[7..], h, [':'] + (Pad2(mi) + ([':'] + Pad2(sec))), acc);
    assert IsoFormat[6..] == [Hour] + IsoFormat[7..];
  }

  /** "%d" and the rest, after the second '-'. */
  lemma DayOnwards(dt: DateTime, acc: DateTime)
    requires Valid(dt)
    ensures Match(IsoFormat[4..], DayOnwardsText(dt), acc)
         == Some((acc.(day := dt.day, hour := dt.hour, minute := dt.minute, second := dt.second), []))
  {
    var a := acc.(day := dt.day);
    var w := Pad2(dt.hour) + ([':'] + (Pad2(dt.minute) + ([':'] + Pad2(dt.second))));
    TimePart(dt.hour, dt.minute, dt.second, a);
    LitStep('T', IsoFormat[6..], w, a);
    assert IsoFormat[5..] == [Lit('T')] + IsoFormat[6..];
    TwoDigitStep(Day, IsoFormat[5..], dt.day, ['T'] + w, acc);
    assert IsoFormat[4..] == [Day] + IsoFormat[5..];
  }

  /** The validity timestamps round-trip: a datetime written by `isoformat()` parses back under
      "%Y-%m-%dT%H:%M:%S" to the same datetime. */
  lemma IsoRoundTrip(dt: DateTime)
    requires Valid(dt)
    ensures Parse(IsoFormat, Render(dt)) == Some(dt)
  {
    var w4 := DayOnwardsText(dt);
    var a1 := Defaults.(year := dt.year, month := dt.month);
    DayOnwards(dt, a1);
    assert a1.(day := dt.day, hour := dt.hour, minute := dt.minute, second := dt.second) == dt;
    LitStep('-', IsoFormat[4..], w4, a1);
    assert IsoFormat[3..] == [Lit('-')] + IsoFormat[4..];
    var a0 := Defaults.(year := dt.year);
    assert Set(a0, Month, dt.month) == a1;
    TwoDigitStep(Month, IsoFormat[3..], dt.month, ['-'] + w4, a0);
    assert IsoFormat[2..] == [Month] + IsoFormat[3..];
    var w1 := Pad2(dt.month) + (['-'] + w4);
    LitStep('-', IsoFormat[2..], w1, a0);
    assert IsoFormat[1..] == [Lit('-')] + IsoFormat[2..];
    YearStep(IsoFormat[1..], dt.year, ['-'] + w1, Defaults);
    assert IsoFormat == [Year] + IsoFormat[1..];
  }
}
