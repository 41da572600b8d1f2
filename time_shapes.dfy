/** The three `TIME_RE` patterns the parser tries on the estimated-duration text, written out as
    matchers over characters. Each is applied with `re.match`, so it is anchored at the start of
    the text; only the second ends in `$`. A match yields the groups the parser reads: `end_date`
    (which only the first pattern defines) and `end_time`. The patterns are compiled without flags:
    `\s` is ASCII whitespace and the keywords are case-sensitive. */
module TimeShapes {
  import opened Wrappers
  import opened Text
  import opened StrptimeTokens

  /** The patterns, in the order of the list:
      DateAndClock `start_time \s*-\s* end_date \.{0,1}\s*(klo|kello)\.*\s* end_time`,
      UntilClock   `end_time \s*(asti|)(\.|)$`,
      ClockRange   `start_time \s*-\s* end_time`. */
  datatype Shape = DateAndClock | UntilClock | ClockRange

  const TimeRe: seq<Shape> := [DateAndClock, UntilClock, ClockRange]

  /** The `end_date` group (`None` when the pattern has no such group) and the `end_time` group. */
  datatype Captures = Captures(endDate: Option<string>, endTime: string)

  predicate DigitAt(s: string, i: int) {
    0 <= i < |s| && IsDigit(s[i])
  }

  /** `[0-9]{h}:[0-9]{2}` at position `i`. */
  predicate ClockAt(s: string, i: int, h: int) {
    && (h == 1 || h == 2)
    && DigitAt(s, i) && DigitAt(s, i + h - 1)
    && i + h < |s| && s[i + h] == ':'
    && DigitAt(s, i + h + 1) && DigitAt(s, i + h + 2)
  }

  /** `[0-9]{h}\.[0-9]{2}` at position `i`. */
  predicate DayMonthAt(s: string, i: int, h: int) {
    && (h == 1 || h == 2)
    && DigitAt(s, i) && DigitAt(s, i + h - 1)
    && i + h < |s| && s[i + h] == '.'
    && DigitAt(s, i + h + 1) && DigitAt(s, i + h + 2)
  }

  /** A token the first pattern captures as `end_time`: `[0-9]{2}:[0-9]{2}` or `[0-9]{1,2}`. */
  predicate IsLongEndTime(t: string) {
    (IsClock(t) && |t| == 5) || IsHours(t)
  }

  /** Where `([0-9]{1,2}:[0-9]{2})|([0-9]{1,2})` can end when it starts at `i`, in the order the
      engine tries them: the first alternative before the second, two digits before one. */
  function ClockOrHourEnds(s: string, i: nat): (r: seq<nat>)
    requires i <= |s|
    ensures forall e | e in r :: i < e <= |s| && (IsClock(s[i..e]) || IsHours(s[i..e]))
    ensures r == [] <==> !DigitAt(s, i)
  {
    var long := if ClockAt(s, i, 2) then ClockAtIsClock(s, i, 2); [i + 5] else [];
    var short := if ClockAt(s, i, 1) then ClockAtIsClock(s, i, 1); [i + 4] else [];
    var two := if DigitAt(s, i) && DigitAt(s, i + 1) then DigitsAreHours(s, i, 2); [i + 2] else [];
    var one := if DigitAt(s, i) then DigitsAreHours(s, i, 1); [i + 1] else [];
    long + short + two + one
  }

  lemma ClockAtIsClock(s: string, i: nat, h: int)
    requires ClockAt(s, i, h)
    ensures i + h + 3 <= |s| && IsClock(s[i..i + h + 3])
  {
    var t := s[i..i + h + 3];
    assert t[..|t| - 3] == s[i..i + h];
    DigitsAreHours(s, i, h);
  }

  lemma DayMonthAtIsDayMonth(s: string, i: nat, h: int)
    requires DayMonthAt(s, i, h)
    ensures i + h + 3 <= |s| && IsDayMonth(s[i..i + h + 3])
  {
    var t := s[i..i + h + 3];
    assert t[..|t| - 3] == s[i..i + h];
    DigitsAreHours(s, i, h);
  }

  lemma DigitsAreHours(s: string, i: nat, n: int)
    requires (n == 1 || n == 2) && DigitAt(s, i) && DigitAt(s, i + n - 1)
    ensures IsHours(s[i..i + n])
  {
  }

  /** Where the first pattern's `end_time`, `([0-9]{2}:[0-9]{2})|([0-9]{1,2})`, ends. Nothing
      follows it in the pattern, so the first alternative that matches is the one kept. */
  function LongEndTimeEnd(s: string, i: nat): (r: Option<nat>)
    requires i <= |s|
    ensures r.Some? ==> i < r.value <= |s| && IsLongEndTime(s[i..r.value])
    ensures r.None? <==> !DigitAt(s, i)
  {
    if ClockAt(s, i, 2) then ClockAtIsClock(s, i, 2); Some(i + 5)
    else if DigitAt(s, i) && DigitAt(s, i + 1) then DigitsAreHours(s, i, 2); Some(i + 2)
    else if DigitAt(s, i) then DigitsAreHours(s, i, 1); Some(i + 1)
    else None
  }

  /** Where `[0-9]{1,2}\.[0-9]{2}` ends. */
  function DayMonthEnd(s: string, i: nat): (r: Option<nat>)
    requires i <= |s|
    ensures r.Some? ==> i < r.value <= |s| && IsDayMonth(s[i..r.value])
  {
    if DayMonthAt(s, i, 2) then DayMonthAtIsDayMonth(s, i, 2); Some(i + 5)
    else if DayMonthAt(s, i, 1) then DayMonthAtIsDayMonth(s, i, 1); Some(i + 4)
    else None
  }

  /** Where `(klo|kello)` ends. */
  function KeywordEnd(s: string, i: nat): (r: Option<nat>)
    requires i <= |s|
    ensures r.Some? ==> i < r.value <= |s| && (OccursAt(s, "klo", i) || OccursAt(s, "kello", i))
  {
    if OccursAt(s, "klo", i) then Some(i + 3)
    else if OccursAt(s, "kello", i) then Some(i + 5)
    else None
  }

  /** Where `\s*-\s*` ends. The runs of spaces are greedy and never give characters back: what
      follows each of them cannot start with a space. */
  function DashEnd(s: string, i: nat): (r: Option<nat>)
    requires i <= |s|
    ensures r.Some? ==> i < r.value <= |s|
  {
    var k := SkipSpaces(s, i);
    if k < |s| && s[k] == '-' then Some(SkipSpaces(s, k + 1)) else None
  }

  /** What `(asti|)(\.|)$` accepts after the spaces: `$` matches at the end of the text or just
      before a final line break. */
  predicate EndAnchoredTail(t: string) {
    var u := if |t| > 0 && t[|t| - 1] == '\n' then t[..|t| - 1] else t;
    u == "" || u == "asti" || u == "." || u == "asti."
  }

  /** The groups a pattern captures, as the pattern's own character classes say. */
  predicate Captured(shape: Shape, c: Captures) {
    match shape
    case DateAndClock => c.endDate.Some? && IsDayMonth(c.endDate.value) && IsLongEndTime(c.endTime)
    case _ => c.endDate.None? && (IsClock(c.endTime) || IsHours(c.endTime))
  }

  /** The leading time group of every pattern, `([0-9]{1,2}:[0-9]{2})|([0-9]{1,2})`, spans `s[..j]`. */
  predicate LeadEnd(s: string, j: int) {
    0 < j <= |s| && (IsClock(s[..j]) || IsHours(s[..j]))
  }

  /** "klo" or "kello" occurs in `s`. */
  predicate HasKeyword(s: string) {
    exists p | 0 <= p < |s| :: OccursAt(s, "klo", p) || OccursAt(s, "kello", p)
  }

  /** The first pattern after `start_time`:
      `\s*-\s*(?P<end_date>[0-9]{1,2}\.[0-9]{2})\.{0,1}\s*(klo|kello)\.*\s*(?P<end_time>...)`.
      The optional dot and the runs of dots and spaces are greedy and never give characters back:
      what follows each of them cannot start with the character it repeats. */
  function DateAndClockRest(s: string, j: nat): (r: Option<Captures>)
    requires j <= |s|
    ensures r.Some? ==> Captured(DateAndClock, r.value) && HasKeyword(s)
  {
    match DashEnd(s, j)
    case None => None
    case Some(k) =>
      match DayMonthEnd(s, k)
      case None => None
      case Some(e) => ClockAfterDate(s, k, e)
  }

  /** The first pattern after `end_date`, which spans `s[k..e]`:
      `\.{0,1}\s*(klo|kello)\.*\s*(?P<end_time>...)`. */
  function ClockAfterDate(s: string, k: nat, e: nat): (r: Option<Captures>)
    requires k < e <= |s| && IsDayMonth(s[k..e])
    ensures r.Some? ==> Captured(DateAndClock, r.value) && HasKeyword(s) && r.value.endDate == Some(s[k..e])
  {
    match KeywordEnd(s, SkipSpaces(s, if e < |s| && s[e] == '.' then e + 1 else e))
    case None => None
    case Some(q) =>
      var q2 := SkipSpaces(s, SkipRun(s, '.', q));
      match LongEndTimeEnd(s, q2)
      case None => None
      case Some(t) => Some(Captures(Some(s[k..e]), s[q2..t]))
  }

  /** The second pattern after `end_time`: `\s*(asti|)(\.|)$`. */
  function UntilClockRest(s: string, j: nat): (r: Option<Captures>)
    requires LeadEnd(s, j)
    ensures r.Some? ==> r.value.endTime == s[..j] && EndAnchoredTail(s[SkipSpaces(s, j)..])
  {
    if EndAnchoredTail(s[SkipSpaces(s, j)..]) then Some(Captures(None, s[..j])) else None
  }

  /** The third pattern after `start_time`: `\s*-\s*(?P<end_time>...)`, whose end time keeps its
      first alternative that matches, nothing following it in the pattern. */
  function ClockRangeRest(s: string, j: nat): (r: Option<Captures>)
    requires j <= |s|
    ensures r.Some? ==> Captured(ClockRange, r.value)
  {
    match DashEnd(s, j)
    case None => None
    case Some(k) =>
      var ends := ClockOrHourEnds(s, k);
      if ends == [] then None else Some(Captures(None, s[k..ends[0]]))
  }

  /** The rest of pattern `shape` once its leading time group has ended at `j`. */
  function After(shape: Shape, s: string, j: nat): (r: Option<Captures>)
    requires LeadEnd(s, j)
    ensures r.Some? ==> Captured(shape, r.value)
    ensures r.Some? && shape == DateAndClock ==> HasKeyword(s)
    ensures r.Some? && shape == UntilClock ==>
      r.value.endTime == s[..j] && EndAnchoredTail(s[SkipSpaces(s, j)..])
  {
    match shape
    case DateAndClock => DateAndClockRest(s, j)
    case UntilClock => UntilClockRest(s, j)
    case ClockRange => ClockRangeRest(s, j)
  }

  /** Backtracking into the leading time group: its possible ends are tried in order and the
      first with which the rest of the pattern matches is kept. */
  function FirstOf(shape: Shape, s: string, ends: seq<nat>): (r: Option<Captures>)
    requires forall k | 0 <= k < |ends| :: LeadEnd(s, ends[k])
    ensures r.None? <==> forall k | 0 <= k < |ends| :: After(shape, s, ends[k]).None?
    ensures r.Some? ==> Captured(shape, r.value)
    ensures r.Some? && shape == DateAndClock ==> HasKeyword(s)
    ensures r.Some? && shape == UntilClock ==>
      LeadEnd(s, |r.value.endTime|) && r.value.endTime == s[..|r.value.endTime|]
      && EndAnchoredTail(s[SkipSpaces(s, |r.value.endTime|)..])
  {
    if ends == [] then None
    else match After(shape, s, ends[0])
      case Some(c) => Some(c)
      case None =>
        var r := FirstOf(shape, s, ends[1..]);
        assert forall k | 1 <= k < |ends| :: ends[k] == ends[1..][k - 1];
        r
  }

  /** `TIME_RE[i].match(s)`: the groups of the pattern matched at the start of `s`, if it matches. */
  function Match(shape: Shape, s: string): (r: Option<Captures>)
    ensures r.Some? ==> Captured(shape, r.value) && DigitAt(s, 0)
    ensures r.Some? && shape == DateAndClock ==> HasKeyword(s)
    ensures r.Some? && shape == UntilClock ==>
      LeadEnd(s, |r.value.endTime|) && r.value.endTime == s[..|r.value.endTime|]
      && EndAnchoredTail(s[SkipSpaces(s, |r.value.endTime|)..])
  {
    var ends := ClockOrHourEnds(s, 0);
    assert forall k | 0 <= k < |ends| :: ends[k] in ends && s[0..ends[k]] == s[..ends[k]];
    FirstOf(shape, s, ends)
  }

  /** The first pattern's `end_time` prefers two-digit hours with minutes; a one-digit hour with
      minutes is captured as the hour alone. */
  lemma OneDigitHourLosesMinutes()
    ensures Match(DateAndClock, FirstExample) == Some(Captures(Some("23.05"), "9"))
  {
    FirstExampleMatch(FirstExample);
  }

  const FirstExample: string := "10:00 - 23.05 klo 9:30"

  lemma FirstExampleMatch(s: string)
    requires s == "10:00 - 23.05 klo 9:30"
    ensures Match(DateAndClock, s) == Some(Captures(Some("23.05"), "9"))
  {
    assert ClockOrHourEnds(s, 0) == [5, 2, 1];
    FirstExampleLead(s);
    FirstExampleDate(s);
    FirstExampleKeyword(s);
    FirstExampleEndTime(s);
    DateAndClockSteps(s, 5, 8, 13, 14, 17, 18, 19);
    assert After(DateAndClock, s, 5) == Some(Captures(Some("23.05"), "9"));
  }

  lemma FirstExampleLead(s: string)
    requires s == "10:00 - 23.05 klo 9:30"
    ensures LeadEnd(s, 5)
    ensures DashEnd(s, 5) == Some(8)
  {
    assert s[..5] == "10:00";
    assert SkipSpaces(s, 5) == 6 && SkipSpaces(s, 7) == 8;
  }

  lemma FirstExampleDate(s: string)
    requires s == "10:00 - 23.05 klo 9:30"
    ensures DayMonthEnd(s, 8) == Some(13) && s[8..13] == "23.05"
    ensures SkipSpaces(s, 13) == 14
  {
    assert DayMonthAt(s, 8, 2);
    assert s[8..13] == "23.05";
  }

  lemma FirstExampleKeyword(s: string)
    requires s == "10:00 - 23.05 klo 9:30"
    ensures KeywordEnd(s, 14) == Some(17)
  {
    assert s[14..17] == "klo";
  }

  lemma FirstExampleEndTime(s: string)
    requires s == "10:00 - 23.05 klo 9:30"
    ensures SkipSpaces(s, SkipRun(s, '.', 17)) == 18
    ensures LongEndTimeEnd(s, 18) == Some(19) && s[18..19] == "9"
  {
    assert SkipRun(s, '.', 17) == 17;
  }

  /** The first pattern, group by group. */
  lemma DateAndClockSteps(s: string, j: nat, k: nat, e: nat, p: nat, q: nat, q2: nat, t: nat)
    requires j <= |s| && DashEnd(s, j) == Some(k) && k <= |s| && DayMonthEnd(s, k) == Some(e) && e <= |s|
    requires p == SkipSpaces(s, if e < |s| && s[e] == '.' then e + 1 else e)
    requires KeywordEnd(s, p) == Some(q) && q <= |s| && q2 == SkipSpaces(s, SkipRun(s, '.', q))
    requires LongEndTimeEnd(s, q2) == Some(t)
    ensures DateAndClockRest(s, j) == Some(Captures(Some(s[k..e]), s[q2..t]))
  {
    ClockAfterDateSteps(s, k, e, p, q, q2, t);
  }

  lemma ClockAfterDateSteps(s: string, k: nat, e: nat, p: nat, q: nat, q2: nat, t: nat)
    requires k < e <= |s| && IsDayMonth(s[k..e])
    requires p == SkipSpaces(s, if e < |s| && s[e] == '.' then e + 1 else e)
    requires KeywordEnd(s, p) == Some(q) && q <= |s| && q2 == SkipSpaces(s, SkipRun(s, '.', q))
    requires LongEndTimeEnd(s, q2) == Some(t)
    ensures ClockAfterDate(s, k, e) == Some(Captures(Some(s[k..e]), s[q2..t]))
  {
  }

  /** The first pattern needs "klo" or "kello" before the end time: a text without a 'k' never
      matches it. */
  lemma KeywordIsMandatory(s: string)
    requires 'k' !in s
    ensures Match(DateAndClock, s) == None
  {
    KeywordNeedsK(s);
  }

  lemma KeywordNeedsK(s: string)
    requires 'k' !in s
    ensures !HasKeyword(s)
  {
    forall p | 0 <= p < |s| ensures !OccursAt(s, "klo", p) && !OccursAt(s, "kello", p) {
      if OccursAt(s, "klo", p) || OccursAt(s, "kello", p) {
        KeywordStartsWithK(s, p);
      }
    }
  }

  lemma KeywordStartsWithK(s: string, p: int)
    requires OccursAt(s, "klo", p) || OccursAt(s, "kello", p)
    ensures 0 <= p < |s| && s[p] == 'k'
  {
    if OccursAt(s, "klo", p) {
      assert s[p..p + 3][0] == s[p];
    } else {
      assert s[p..p + 5][0] == s[p];
    }
  }

  /** The first pattern's month has exactly two digits. */
  lemma MonthNeedsTwoDigits()
    ensures Match(DateAndClock, "10:00 - 23.5 klo 14:00") == None
  {
    ShortMonth("10:00 - 23.5 klo 14:00");
  }

  lemma ShortMonth(s: string)
    requires s == "10:00 - 23.5 klo 14:00"
    ensures Match(DateAndClock, s) == None
  {
    assert ClockOrHourEnds(s, 0) == [5, 2, 1];
    ShortMonthAfterDash(s);
    NoDashAt(s, 2);
    NoDashAt(s, 1);
    NoEndFits(DateAndClock, s);
  }

  /** When no end of the leading time group lets the rest of the pattern match, the pattern
      does not match. */
  lemma NoEndFits(shape: Shape, s: string)
    requires forall e | e in ClockOrHourEnds(s, 0) :: LeadEnd(s, e) ==> After(shape, s, e).None?
    ensures Match(shape, s) == None
  {
    var ends := ClockOrHourEnds(s, 0);
    assert forall k | 0 <= k < |ends| :: ends[k] in ends && s[0..ends[k]] == s[..ends[k]];
  }

  /** Without spaces or a dash where the leading time ends, the first pattern fails there. */
  lemma NoDashAt(s: string, j: nat)
    requires j < |s| && s[j] != '-' && !IsSpace(s[j])
    ensures DateAndClockRest(s, j) == None
  {
    assert SkipSpaces(s, j) == j;
  }

  lemma ShortMonthAfterDash(s: string)
    requires s == "10:00 - 23.5 klo 14:00"
    ensures DateAndClockRest(s, 5) == None
  {
    assert s[5] == ' ' && s[6] == '-' && s[7] == ' ' && s[8] == '2' && s[9] == '3' && s[12] == ' ';
    assert SkipSpaces(s, 5) == 6 by { assert SkipSpaces(s, 6) == 6; }
    assert SkipSpaces(s, 7) == 8 by { assert SkipSpaces(s, 8) == 8; }
    assert !DayMonthAt(s, 8, 2) && !DayMonthAt(s, 8, 1);
    NoDayMonth(s, 5, 8);
  }

  lemma NoDayMonth(s: string, j: nat, k: nat)
    requires j <= |s| && DashEnd(s, j) == Some(k) && k <= |s| && DayMonthEnd(s, k) == None
    ensures DateAndClockRest(s, j) == None
  {
  }

  /** The second pattern is anchored at the end: "asti" and a dot may follow the time, nothing else. */
  lemma UntilClockExamples()
    ensures Match(UntilClock, "14:00 asti.") == Some(Captures(None, "14:00"))
    ensures Match(UntilClock, "14 tai myöhemmin") == None
  {
    UntilTwo("14:00 asti.");
    NotUntil("14 tai myöhemmin");
  }

  lemma UntilTwo(s: string)
    requires s == "14:00 asti."
    ensures Match(UntilClock, s) == Some(Captures(None, "14:00"))
  {
    assert ClockOrHourEnds(s, 0) == [5, 2, 1];
    assert SkipSpaces(s, 5) == 6;
    assert s[6..] == "asti.";
    assert s[..5] == "14:00";
    assert UntilClockRest(s, 5) == Some(Captures(None, "14:00"));
  }

  lemma NotUntil(u: string)
    requires u == "14 tai myöhemmin"
    ensures Match(UntilClock, u) == None
  {
    assert ClockOrHourEnds(u, 0) == [2, 1];
    assert SkipSpaces(u, 2) == 3 && SkipSpaces(u, 1) == 1;
    assert u[3..][|u[3..]| - 1] == 'n' && u[3..] != "asti" && u[3..] != "asti.";
    assert UntilClockRest(u, 2) == None;
    assert u[1..][|u[1..]| - 1] == 'n' && u[1..][0] == '4';
    assert UntilClockRest(u, 1) == None;
  }

  /** The third pattern is not anchored at the end. */
  lemma ClockRangeExample()
    ensures Match(ClockRange, "10-12 muutoksia") == Some(Captures(None, "12"))
  {
    var s := "10-12 muutoksia";
    assert ClockOrHourEnds(s, 0) == [2, 1];
    assert SkipSpaces(s, 2) == 2 && SkipSpaces(s, 3) == 3;
    assert DashEnd(s, 2) == Some(3);
    assert ClockOrHourEnds(s, 3) == [5, 4];
    assert s[3..5] == "12";
    assert ClockRangeRest(s, 2) == Some(Captures(None, "12"));
  }
}
