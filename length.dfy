/** `parse_length`: the estimated end of a disruption, read from the free text after the lead-in
    "Arvioitu kesto: ". The date part counts from 1900-01-01: a captured `end_date` is read under
    `DATE_FORMATS` (its day of 1900, or nothing when no format parses it), and without one the
    reference date's month and day are used; the end time's hours and minutes are added; and the
    days from 1900-01-01 to January 1 of the reference year are added last. */
module Length {
  import opened Wrappers
  import opened Text
  import opened Calendar
  import opened Strptime
  import opened StrptimeTokens
  import opened TimeShapes
  import opened Errors

  const LeadIn: string := "Arvioitu kesto: "

  /** The seconds the date part adds to 1900-01-01: the first of `DATE_FORMATS` that parses the
      captured `end_date` (none parsing adds nothing), or, when the pattern has no `end_date`
      group, the reference month and day in 1900, which fails for February 29. */
  function DayPart(c: Captures, now: DateTime): (r: Result<int, ParseError>)
    requires Valid(now)
  {
    match c.endDate
    case Some(d) =>
      Ok(match FirstParse(DateFormats, d) case Some(dt) => SecondsFrom1900(dt) case None => 0)
    case None =>
      if ValidDate(1900, now.month, now.day) then Ok(SecondsFrom1900(DateTime(1900, now.month, now.day, 0, 0, 0)))
      else Err(NoLeapDay)
  }

  /** The match of every `TIME_RE` pattern against `e`, in the order of the list. */
  function Matches(e: string): (ms: seq<Option<Captures>>)
    ensures |ms| == |TimeRe|
    ensures forall k | 0 <= k < |ms| :: ms[k].Some? ==> Captured(TimeRe[k], ms[k].value)
  {
    seq(|TimeRe|, k requires 0 <= k < |TimeRe| => TimeShapes.Match(TimeRe[k], e))
  }

  /** The estimate once the patterns before `i` have been tried, `ms` holding what each pattern
      matched: a pattern that does not match, or whose `end_time` fits neither of `TIME_FORMATS`,
      passes on to the next one. */
  function TryShapes(ms: seq<Option<Captures>>, now: DateTime, i: nat): (r: Result<Option<Stamp>, ParseError>)
    requires Valid(now) && i <= |ms|
    decreases |ms| - i
  {
    if i == |ms| then Ok(None)
    else match ms[i]
      case None => TryShapes(ms, now, i + 1)
      case Some(c) =>
        match DayPart(c, now)
        case Err(err) => Err(err)
        case Ok(day) =>
          match FirstParse(TimeFormats, c.endTime)
          case None => TryShapes(ms, now, i + 1)
          case Some(t) => Ok(Some(HelsinkiTime(day + SecondsFrom1900(t) + YearStart(now.year))))
  }

  /** `parse_length(text, now)`: nothing without the lead-in; otherwise the patterns are tried on
      the text between the first lead-in and the next one. */
  function EstimatedEnd(text: string, now: DateTime): (r: Result<Option<Stamp>, ParseError>)
    requires Valid(now)
  {
    if !Contains(text, LeadIn) then Ok(None) else TryShapes(Matches(SecondPiece(text, LeadIn)), now, 0)
  }

  /** `parse_length`, loop by loop: the patterns in order, the date formats until one parses, the
      time formats until one parses, with the timestamp built up step by step. A pattern whose
      end time fits no format lets the loop go on to the next pattern. */
  method ParseLength(text: string, now: DateTime) returns (r: Result<Option<Stamp>, ParseError>)
    requires Valid(now)
    ensures r == EstimatedEnd(text, now)
  {
    if !Contains(text, LeadIn) {
      return Ok(None);
    }
    var e := SecondPiece(text, LeadIn);
    ghost var ms := Matches(e);
    var i := 0;
    while i < |TimeRe|
      invariant 0 <= i <= |TimeRe|
      invariant TryShapes(ms, now, i) == EstimatedEnd(text, now)
    {
      var m := TimeShapes.Match(TimeRe[i], e);
      var outcome := TryShape(ms, i, m, now);
      if outcome.Some? {
        return outcome.value;
      }
      i := i + 1;
    }
    return Ok(None);
  }

  /** One turn of the loop over `TIME_RE`, on what pattern `i` matched: the estimate, or nothing
      when the loop goes on to the next pattern. */
  method TryShape(ghost ms: seq<Option<Captures>>, i: nat, m: Option<Captures>, now: DateTime)
    returns (r: Option<Result<Option<Stamp>, ParseError>>)
    requires Valid(now) && i < |ms| && ms[i] == m
    ensures r.Some? ==> TryShapes(ms, now, i) == r.value
    ensures r.None? ==> TryShapes(ms, now, i) == TryShapes(ms, now, i + 1)
  {
    if m.None? {
      return None;
    }
    var c := m.value;
    var dayPart := DateOffset(c, now);
    if dayPart.Err? {
      return Some(Err(dayPart.error));
    }
    var parsed := dayPart.value;
    var timePart := ParseFirst(TimeFormats, c.endTime);
    if timePart.None? {
      return None;
    }
    ghost var day := parsed;
    parsed := parsed + SecondsFrom1900(timePart.value);
    parsed := parsed + YearStart(now.year);
    TryShapesHit(ms, now, i, c, day, timePart.value);
    return Some(Ok(Some(HelsinkiTime(parsed))));
  }

  /** A pattern whose end time fits a format gives the estimate. */
  lemma TryShapesHit(ms: seq<Option<Captures>>, now: DateTime, i: nat, c: Captures, day: int, t: DateTime)
    requires Valid(now) && i < |ms|
    requires ms[i] == Some(c) && DayPart(c, now) == Ok(day)
    requires FirstParse(TimeFormats, c.endTime) == Some(t)
    ensures TryShapes(ms, now, i) == Ok(Some(HelsinkiTime(day + SecondsFrom1900(t) + YearStart(now.year))))
  {
  }

  /** The date part of `parse_length`: the loop over `DATE_FORMATS` when `end_date` was captured,
      the reference month and day in 1900 otherwise. */
  method DateOffset(c: Captures, now: DateTime) returns (r: Result<int, ParseError>)
    requires Valid(now)
    ensures r == DayPart(c, now)
  {
    var parsed := 0;
    if c.endDate.Some? {
      var date := ParseFirst(DateFormats, c.endDate.value);
      if date.Some? {
        parsed := parsed + SecondsFrom1900(date.value);
      }
    } else {
      if !ValidDate(1900, now.month, now.day) {
        return Err(NoLeapDay);
      }
      parsed := parsed + SecondsFrom1900(DateTime(1900, now.month, now.day, 0, 0, 0));
    }
    return Ok(parsed);
  }

  /** The loop over a list of formats: `strptime` under each in turn, stopping at the first that
      does not raise. */
  method ParseFirst(fmts: seq<Format>, s: string) returns (r: Option<DateTime>)
    ensures r == FirstParse(fmts, s)
  {
    r := None;
    var j := 0;
    while j < |fmts|
      invariant 0 <= j <= |fmts|
      invariant FirstParse(fmts[j..], s) == FirstParse(fmts, s)
    {
      var part := Parse(fmts[j], s);
      FirstParseStep(fmts, s, j);
      if part.Some? {
        return part;
      }
      j := j + 1;
    }
  }

  /** One turn of a loop over formats: the first format of `fmts[j..]` either parses or hands over
      to `fmts[j + 1..]`. */
  lemma FirstParseStep(fmts: seq<Format>, s: string, j: nat)
    requires j < |fmts|
    ensures FirstParse(fmts[j..], s) ==
      if Parse(fmts[j], s).Some? then Parse(fmts[j], s) else FirstParse(fmts[j + 1..], s)
  {
    assert fmts[j..][0] == fmts[j];
    assert fmts[j..][1..] == fmts[j + 1..];
  }

  /** The groups as the patterns' character classes shape them: a day-month `end_date` and a
      clock or one- or two-digit `end_time`. */
  predicate WellFormed(c: Captures) {
    (c.endDate.Some? ==> IsDayMonth(c.endDate.value)) && (IsClock(c.endTime) || IsHours(c.endTime))
  }

  lemma CapturedIsWellFormed(shape: Shape, c: Captures)
    requires Captured(shape, c)
    ensures WellFormed(c)
  {
  }

  /** The date part counts a day of 1900: the captured day and month when they exist in 1900,
      January 1 when they do not, and the reference month and day when there is no `end_date`,
      which raises exactly when that is February 29. */
  lemma DayPartMeaning(c: Captures, now: DateTime)
    requires Valid(now) && WellFormed(c)
    ensures c.endDate.Some? ==>
      var d := c.endDate.value;
      DayPart(c, now) == Ok(if ValidDate(1900, Minor(d), Major(d)) then DaysFrom1900(1900, Minor(d), Major(d)) * 86400 else 0)
    ensures c.endDate.None? ==>
      DayPart(c, now) == if now.month == 2 && now.day == 29 then Err(NoLeapDay) else Ok(DaysFrom1900(1900, now.month, now.day) * 86400)
  {
    if c.endDate.Some? {
      DayMonthUnderDateFormats(c.endDate.value);
    }
  }

  /** An `end_time` read under `TIME_FORMATS` is a wall-clock time on 1900-01-01 with no seconds. */
  lemma EndTimeMeaning(t: string)
    requires IsClock(t) || IsHours(t)
    ensures FirstParse(TimeFormats, t).Some? ==>
      var v := FirstParse(TimeFormats, t).value;
      v.year == 1900 && v.month == 1 && v.day == 1 && v.second == 0
      && SecondsFrom1900(v) == v.hour * 3600 + v.minute * 60
  {
    if IsClock(t) {
      ClockUnderTimeFormats(t);
    } else {
      HoursUnderTimeFormats(t);
    }
  }

  /** `seconds` is what `parse_length` makes of day `d` of month `m` (counted in 1900) at `h:mi`
      for reference year `y`. */
  predicate CountedFrom1900(seconds: int, y: int, m: int, d: int, h: int, mi: int)
    requires 1 <= y
  {
    ValidDate(1900, m, d) && 0 <= h < 24 && 0 <= mi < 60
    && seconds == YearStart(y) + DaysFrom1900(1900, m, d) * 86400 + h * 3600 + mi * 60
  }

  /** Some day and time of 1900 explains `seconds`. */
  predicate IsEstimate(seconds: int, now: DateTime)
    requires Valid(now)
  {
    exists m, d, h, mi | 1 <= m <= 12 && 1 <= d <= 31 && 0 <= h < 24 && 0 <= mi < 60 ::
      CountedFrom1900(seconds, now.year, m, d, h, mi)
  }

  /** A hit of one pattern gives an estimate. */
  lemma HitIsEstimate(c: Captures, now: DateTime, day: int, t: DateTime)
    requires Valid(now) && WellFormed(c) && DayPart(c, now) == Ok(day)
    requires FirstParse(TimeFormats, c.endTime) == Some(t)
    ensures IsEstimate(day + SecondsFrom1900(t) + YearStart(now.year), now)
  {
    DayPartMeaning(c, now);
    EndTimeMeaning(c.endTime);
    var m, d;
    if c.endDate.Some? {
      var date := c.endDate.value;
      if ValidDate(1900, Minor(date), Major(date)) {
        m, d := Minor(date), Major(date);
      } else {
        m, d := 1, 1;
      }
    } else {
      m, d := now.month, now.day;
    }
    assert day == DaysFrom1900(1900, m, d) * 86400;
    assert CountedFrom1900(day + SecondsFrom1900(t) + YearStart(now.year), now.year, m, d, t.hour, t.minute);
  }

  /** What an outcome of `parse_length` can be: an estimate, nothing, or the February 29 error. */
  predicate Settled(r: Result<Option<Stamp>, ParseError>, now: DateTime)
    requires Valid(now)
  {
    && (r.Ok? && r.value.Some? ==> IsEstimate(r.value.value.seconds, now))
    && (r.Err? ==> r.error == NoLeapDay && now.month == 2 && now.day == 29)
  }

  /** Trying well-formed matches from `i` on settles. */
  lemma {:induction false} TryShapesOutcome(ms: seq<Option<Captures>>, now: DateTime, i: nat)
    requires Valid(now) && i <= |ms|
    requires forall k | 0 <= k < |ms| :: ms[k].Some? ==> WellFormed(ms[k].value)
    ensures Settled(TryShapes(ms, now, i), now)
    decreases |ms| - i
  {
    if i < |ms| {
      TryShapesOutcome(ms, now, i + 1);
      ShapeSettles(ms, now, i);
    }
  }

  /** One pattern more settles when the patterns after it do. */
  lemma ShapeSettles(ms: seq<Option<Captures>>, now: DateTime, i: nat)
    requires Valid(now) && i < |ms| && (ms[i].Some? ==> WellFormed(ms[i].value))
    requires Settled(TryShapes(ms, now, i + 1), now)
    ensures Settled(TryShapes(ms, now, i), now)
  {
    if PassesOn(ms, now, i) {
      PassOn(ms, now, i);
    } else {
      var c := ms[i].value;
      Settles(ms, now, i);
      if !RaisesLeapDay(c, now) {
        DayPartMeaning(c, now);
        EndTimeFits(c.endTime);
        HitIsEstimate(c, now, DateSeconds(c, now), FirstParse(TimeFormats, c.endTime).value);
      }
    }
  }

  /** The seconds the date part adds, in closed form: the captured day and month counted in 1900
      (nothing when that day does not exist in 1900), or the reference month and day without an
      `end_date`. */
  function DateSeconds(c: Captures, now: DateTime): int
    requires Valid(now) && WellFormed(c)
  {
    match c.endDate
    case Some(d) => if ValidDate(1900, Minor(d), Major(d)) then DaysFrom1900(1900, Minor(d), Major(d)) * 86400 else 0
    case None => DaysFrom1900(1900, now.month, now.day) * 86400
  }

  /** The end time fits one of `TIME_FORMATS`: an hour of at most 23 and minutes of at most 59. */
  predicate TimeFits(t: string) {
    (IsClock(t) && Major(t) <= 23 && Minor(t) <= 59) || (IsHours(t) && NumberOf(t) <= 23)
  }

  /** The seconds the end time adds: its hours, and its minutes when it has them. */
  function TimeSeconds(t: string): int
    requires IsClock(t) || IsHours(t)
  {
    if IsClock(t) then Major(t) * 3600 + Minor(t) * 60 else NumberOf(t) * 3600
  }

  /** A pattern without an `end_date` group, read on February 29, raises. */
  predicate RaisesLeapDay(c: Captures, now: DateTime) {
    c.endDate.None? && now.month == 2 && now.day == 29
  }

  /** Pattern `j` lets the loop go on: it did not match, or its date part did not raise and its end
      time fits no format. */
  predicate PassesOn(ms: seq<Option<Captures>>, now: DateTime, j: int)
    requires 0 <= j < |ms|
  {
    ms[j].None? || (!RaisesLeapDay(ms[j].value, now) && !TimeFits(ms[j].value.endTime))
  }

  /** Pattern `k` is the first from `i` on that does not pass on. */
  predicate SettlesFirst(ms: seq<Option<Captures>>, now: DateTime, i: int, k: int)
    requires 0 <= i <= k < |ms|
  {
    !PassesOn(ms, now, k) && forall j | i <= j < k :: PassesOn(ms, now, j)
  }

  /** What a pattern that does not pass on gives: the February 29 error, or its day counted in 1900
      at its end time, in the reference year. */
  function Settlement(c: Captures, now: DateTime): Result<Option<Stamp>, ParseError>
    requires Valid(now) && WellFormed(c)
  {
    if RaisesLeapDay(c, now) then Err(NoLeapDay)
    else Ok(Some(HelsinkiTime(YearStart(now.year) + DateSeconds(c, now) + TimeSeconds(c.endTime))))
  }

  /** An end time parses under `TIME_FORMATS` exactly when it fits, and then adds its hours and
      minutes. */
  lemma EndTimeFits(t: string)
    requires IsClock(t) || IsHours(t)
    ensures FirstParse(TimeFormats, t).Some? <==> TimeFits(t)
    ensures TimeFits(t) ==> SecondsFrom1900(FirstParse(TimeFormats, t).value) == TimeSeconds(t)
  {
    EndTimeMeaning(t);
    if IsClock(t) {
      ClockUnderTimeFormats(t);
    } else {
      HoursUnderTimeFormats(t);
    }
  }

  /** A pattern that passes on hands the loop to the next one. */
  lemma PassOn(ms: seq<Option<Captures>>, now: DateTime, i: nat)
    requires Valid(now) && i < |ms| && (ms[i].Some? ==> WellFormed(ms[i].value)) && PassesOn(ms, now, i)
    ensures TryShapes(ms, now, i) == TryShapes(ms, now, i + 1)
  {
    if ms[i].Some? {
      DayPartMeaning(ms[i].value, now);
      EndTimeFits(ms[i].value.endTime);
    }
  }

  /** A pattern that does not pass on settles the loop. */
  lemma Settles(ms: seq<Option<Captures>>, now: DateTime, k: nat)
    requires Valid(now) && k < |ms| && ms[k].Some? && WellFormed(ms[k].value) && !PassesOn(ms, now, k)
    ensures TryShapes(ms, now, k) == Settlement(ms[k].value, now)
  {
    var c := ms[k].value;
    DayPartMeaning(c, now);
    EndTimeFits(c.endTime);
    if !RaisesLeapDay(c, now) {
      assert DayPart(c, now) == Ok(DateSeconds(c, now));
      TryShapesHit(ms, now, k, c, DateSeconds(c, now), FirstParse(TimeFormats, c.endTime).value);
    }
  }

  /** Patterns that pass on leave the outcome to the ones after them. */
  lemma {:induction false} PassThrough(ms: seq<Option<Captures>>, now: DateTime, i: nat, k: nat)
    requires Valid(now) && i <= k <= |ms|
    requires forall j | 0 <= j < |ms| :: ms[j].Some? ==> WellFormed(ms[j].value)
    requires forall j | i <= j < k :: PassesOn(ms, now, j)
    ensures TryShapes(ms, now, i) == TryShapes(ms, now, k)
  {
    forall j | i <= j < k ensures TryShapes(ms, now, j) == TryShapes(ms, now, j + 1) {
      PassOn(ms, now, j);
    }
    Chain(ms, now, i, k);
  }

  /** Equal outcomes from each pattern to the next are equal across the range. */
  lemma {:induction false} Chain(ms: seq<Option<Captures>>, now: DateTime, i: nat, k: nat)
    requires Valid(now) && i <= k <= |ms|
    requires forall j | i <= j < k :: TryShapes(ms, now, j) == TryShapes(ms, now, j + 1)
    ensures TryShapes(ms, now, i) == TryShapes(ms, now, k)
    decreases k - i
  {
    if i < k {
      Chain(ms, now, i + 1, k);
    }
  }

  /** Trying the patterns from `i`, when `k` is the first that does not pass on, gives what `k`
      settles. */
  lemma SettledAt(ms: seq<Option<Captures>>, now: DateTime, i: nat, k: nat)
    requires Valid(now) && i <= k < |ms|
    requires forall j | 0 <= j < |ms| :: ms[j].Some? ==> WellFormed(ms[j].value)
    requires SettlesFirst(ms, now, i, k)
    ensures TryShapes(ms, now, i) == Settlement(ms[k].value, now)
  {
    PassThrough(ms, now, i, k);
    Settles(ms, now, k);
  }

  /** When every pattern from `i` on passes on, the loop ends with nothing. */
  lemma AllPassOn(ms: seq<Option<Captures>>, now: DateTime, i: nat)
    requires Valid(now) && i <= |ms|
    requires forall j | 0 <= j < |ms| :: ms[j].Some? ==> WellFormed(ms[j].value)
    requires forall j | i <= j < |ms| :: PassesOn(ms, now, j)
    ensures TryShapes(ms, now, i) == Ok(None)
  {
    PassThrough(ms, now, i, |ms|);
  }

  /** When some pattern from `i` on does not pass on, there is a first one. */
  lemma {:induction false} FirstToSettle(ms: seq<Option<Captures>>, now: DateTime, i: nat) returns (k: nat)
    requires i <= |ms| && exists j | i <= j < |ms| :: !PassesOn(ms, now, j)
    ensures i <= k < |ms| && SettlesFirst(ms, now, i, k)
    decreases |ms| - i
  {
    if PassesOn(ms, now, i) {
      k := FirstToSettle(ms, now, i + 1);
    } else {
      k := i;
    }
  }

  /** The loop over the patterns from `i`, in closed form: nothing exactly when every pattern
      passes on, and otherwise what the first pattern that does not pass on settles. */
  lemma TryShapesMeaning(ms: seq<Option<Captures>>, now: DateTime, i: nat)
    requires Valid(now) && i <= |ms|
    requires forall j | 0 <= j < |ms| :: ms[j].Some? ==> WellFormed(ms[j].value)
    ensures TryShapes(ms, now, i) == Ok(None) <==> forall j | i <= j < |ms| :: PassesOn(ms, now, j)
    ensures TryShapes(ms, now, i) != Ok(None) ==>
      exists k | i <= k < |ms| :: SettlesFirst(ms, now, i, k) && TryShapes(ms, now, i) == Settlement(ms[k].value, now)
  {
    if forall j | i <= j < |ms| :: PassesOn(ms, now, j) {
      AllPassOn(ms, now, i);
    } else {
      var k := FirstToSettle(ms, now, i);
      SettledAt(ms, now, i, k);
    }
  }

  /** `parse_length` in closed form: nothing without the lead-in; otherwise, over the patterns'
      matches on the text after the first lead-in, nothing exactly when every pattern passes on,
      and else what the first pattern that does not pass on settles. */
  lemma EstimatedEndMeaning(text: string, now: DateTime)
    requires Valid(now)
    ensures !Contains(text, LeadIn) ==> EstimatedEnd(text, now) == Ok(None)
    ensures Contains(text, LeadIn) ==>
      var ms := Matches(SecondPiece(text, LeadIn));
      && (forall j | 0 <= j < |ms| :: ms[j].Some? ==> WellFormed(ms[j].value))
      && (EstimatedEnd(text, now) == Ok(None) <==> forall j | 0 <= j < |ms| :: PassesOn(ms, now, j))
      && (EstimatedEnd(text, now) != Ok(None) ==>
            exists k | 0 <= k < |ms| :: SettlesFirst(ms, now, 0, k) && EstimatedEnd(text, now) == Settlement(ms[k].value, now))
  {
    if Contains(text, LeadIn) {
      var ms := Matches(SecondPiece(text, LeadIn));
      forall j | 0 <= j < |ms| && ms[j].Some? ensures WellFormed(ms[j].value) {
        CapturedIsWellFormed(TimeRe[j], ms[j].value);
      }
      TryShapesMeaning(ms, now, 0);
    }
  }

  /** An estimate is a wall-clock time of the reference year `Y`: the captured (or reference)
      month and day at the captured hour and minute, except that in a leap year a date after
      February comes out one day early, because its day of the year is counted in 1900. So the
      estimate lies within year `Y`. An error is only ever the February 29 one. */
  lemma EstimateInReferenceYear(text: string, now: DateTime)
    requires Valid(now)
    ensures EstimatedEnd(text, now).Ok? && EstimatedEnd(text, now).value.Some? ==>
      var st := EstimatedEnd(text, now).value.value;
      && YearStart(now.year) <= st.seconds < YearStart(now.year + 1)
      && exists m, d, h, mi | 1 <= m <= 12 && 1 <= d <= 31 && 0 <= h < 24 && 0 <= mi < 60 ::
           && Valid(DateTime(now.year, m, d, h, mi, 0))
           && st.seconds == SecondsFrom1900(DateTime(now.year, m, d, h, mi, 0)) - (if IsLeap(now.year) && m > 2 then 86400 else 0)
    ensures EstimatedEnd(text, now).Err? ==> EstimatedEnd(text, now).error == NoLeapDay && now.month == 2 && now.day == 29
  {
    if Contains(text, LeadIn) {
      var ms := Matches(SecondPiece(text, LeadIn));
      forall k | 0 <= k < |ms| && ms[k].Some? ensures WellFormed(ms[k].value) {
        CapturedIsWellFormed(TimeRe[k], ms[k].value);
      }
      TryShapesOutcome(ms, now, 0);
    }
    var r := EstimatedEnd(text, now);
    if r.Ok? && r.value.Some? {
      var st := r.value.value;
      var m, d, h, mi :| 1 <= m <= 12 && 1 <= d <= 31 && 0 <= h < 24 && 0 <= mi < 60 && CountedFrom1900(st.seconds, now.year, m, d, h, mi);
      EstimateInYear(st.seconds, now.year, m, d, h, mi);
    }
  }

  /** One estimate, placed in its year. */
  lemma EstimateInYear(seconds: int, y: int, m: int, d: int, h: int, mi: int)
    requires 1 <= y <= 9999 && CountedFrom1900(seconds, y, m, d, h, mi)
    ensures YearStart(y) <= seconds < YearStart(y + 1)
    ensures Valid(DateTime(y, m, d, h, mi, 0))
    ensures seconds == SecondsFrom1900(DateTime(y, m, d, h, mi, 0)) - (if IsLeap(y) && m > 2 then 86400 else 0)
  {
    DayOfYearBounds(1900, m, d);
    YearLength(y);
    assert DaysFrom1900(1900, 1, 1) == 0;
    DayOf1900InYear(y, m, d);
  }

  /** A text that opens with the lead-in, and does not contain it again, is read from just after it. */
  lemma AfterLeadIn(rest: string, now: DateTime)
    requires Valid(now) && !Contains(rest, LeadIn)
    ensures EstimatedEnd(LeadIn + rest, now) == TryShapes(Matches(rest), now, 0)
  {
    SecondPieceOfLeading(LeadIn, rest);
  }

  /** Wherever the first lead-in stands (after a description and a "Syy:" line, say), the text
      after it is what the patterns are tried on, when the lead-in does not occur again. */
  lemma AfterLeadInAt(before: string, rest: string, now: DateTime)
    requires Valid(now) && Find(before + LeadIn + rest, LeadIn, 0) == Some(|before|)
    requires !Contains(rest, LeadIn)
    ensures EstimatedEnd(before + LeadIn + rest, now) == TryShapes(Matches(rest), now, 0)
  {
    SecondPieceAfter(before, LeadIn, rest);
  }

  /** "Arvioitu kesto: 10:00 - 23.05 klo 9:30" read on any day of 2024: the first pattern captures
      "23.05" and only the hour "9", and May 23 counted in 1900 lands on May 22 of the leap year. */
  lemma LeapYearEstimate(text: string, now: DateTime)
    requires text == LeadIn + FirstExample && Valid(now) && now.year == 2024
    ensures EstimatedEnd(text, now) == Ok(Some(HelsinkiTime(SecondsFrom1900(DateTime(2024, 5, 22, 9, 0, 0)))))
  {
    var ms := FirstExampleMatches(FirstExample);
    AfterLeadIn(FirstExample, now);
    var x := FirstExampleEstimate(ms, now);
    MayTwentyThirdCountedIn1900();
  }

  /** What the first pattern makes of the example. */
  lemma FirstExampleMatches(e: string) returns (ms: seq<Option<Captures>>)
    requires e == FirstExample
    ensures !Contains(e, LeadIn) && ms == Matches(e)
    ensures |ms| > 0 && ms[0] == Some(Captures(Some("23.05"), "9"))
  {
    assert forall k | 0 <= k < |e| :: e[k] != 'A';
    assert LeadIn[0] == 'A';
    FindAbsent(e, LeadIn, 0);
    OneDigitHourLosesMinutes();
    ms := Matches(e);
  }

  /** May 23 counted in 1900 and added to the start of 2024 is May 22 of 2024. */
  lemma MayTwentyThirdCountedIn1900()
    ensures DaysFrom1900(1900, 5, 23) * 86400 + 9 * 3600 + YearStart(2024)
         == SecondsFrom1900(DateTime(2024, 5, 22, 9, 0, 0))
  {
    DayOf1900InYear(2024, 5, 23);
  }

  lemma FirstExampleEstimate(ms: seq<Option<Captures>>, now: DateTime) returns (x: int)
    requires Valid(now) && |ms| > 0 && ms[0] == Some(Captures(Some("23.05"), "9"))
    ensures x == DaysFrom1900(1900, 5, 23) * 86400 + 9 * 3600 + YearStart(now.year)
    ensures TryShapes(ms, now, 0) == Ok(Some(HelsinkiTime(x)))
  {
    var c := Captures(Some("23.05"), "9");
    var day := FirstExampleDay(now);
    var t := FirstExampleTime();
    TryShapesHit(ms, now, 0, c, day, t);
    x := day + SecondsFrom1900(t) + YearStart(now.year);
  }

  lemma FirstExampleDay(now: DateTime) returns (day: int)
    requires Valid(now)
    ensures day == DaysFrom1900(1900, 5, 23) * 86400
    ensures DayPart(Captures(Some("23.05"), "9"), now) == Ok(day)
  {
    DayMonthUnderDateFormats("23.05");
    day := DaysFrom1900(1900, 5, 23) * 86400;
  }

  lemma FirstExampleTime() returns (t: DateTime)
    ensures FirstParse(TimeFormats, "9") == Some(t) && SecondsFrom1900(t) == 9 * 3600
  {
    HoursUnderTimeFormats("9");
    t := DateTime(1900, 1, 1, 9, 0, 0);
  }

  /** "Arvioitu kesto: 14:00 asti." read on February 29: the second pattern matches, and the
      reference day does not exist in 1900. */
  lemma LeapDayRaises(text: string, now: DateTime)
    requires text == LeadIn + "14:00 asti." && now == DateTime(2024, 2, 29, 8, 0, 0)
    ensures EstimatedEnd(text, now) == Err(NoLeapDay)
  {
    var e := "14:00 asti.";
    AfterLeadIn(e, now);
    var ms := UntilTwoMatches(e);
    UntilClockOnLeapDay(ms, now);
  }

  /** What the patterns make of "14:00 asti.": only the second one matches. */
  lemma UntilTwoMatches(e: string) returns (ms: seq<Option<Captures>>)
    requires e == "14:00 asti."
    ensures !Contains(e, LeadIn) && ms == Matches(e)
    ensures |ms| > 1 && ms[0] == None && ms[1] == Some(Captures(None, "14:00"))
  {
    assert forall k | 0 <= k < |e| :: e[k] != 'k' && e[k] != 'A';
    assert LeadIn[0] == 'A';
    FindAbsent(e, LeadIn, 0);
    KeywordNeedsK(e);
    UntilClockExamples();
    ms := Matches(e);
  }

  lemma UntilClockOnLeapDay(ms: seq<Option<Captures>>, now: DateTime)
    requires Valid(now) && now.month == 2 && now.day == 29
    requires |ms| > 1 && ms[0] == None && ms[1] == Some(Captures(None, "14:00"))
    ensures TryShapes(ms, now, 0) == Err(NoLeapDay)
  {
    assert TryShapes(ms, now, 0) == TryShapes(ms, now, 1);
  }

  /** "Arvioitu kesto: 14:00 asti." read on any day that also exists in 1900: no date is
      captured, so the estimate is 14:00 of the reading day, except that from March on in a leap
      year it lands a day early (read on 2024-03-10 it gives 2024-03-09 14:00). */
  lemma UntilClockOnDay(text: string, now: DateTime)
    requires text == LeadIn + "14:00 asti." && Valid(now) && ValidDate(1900, now.month, now.day)
    ensures EstimatedEnd(text, now) == Ok(Some(HelsinkiTime(ShiftedSameDay(now, 14))))
  {
    ReferenceDayAt(now, 14);
    var x := UntilTwoEstimate(text, now);
  }

  /** Hour `h` of the reading day, a day early from March on in a leap year: where counting the
      day in 1900 puts a time with no date. */
  function ShiftedSameDay(now: DateTime, h: int): int
    requires Valid(now)
  {
    SecondsFrom1900(DateTime(now.year, now.month, now.day, h, 0, 0)) - (if IsLeap(now.year) && now.month > 2 then 86400 else 0)
  }

  /** The reading day counted in 1900, at hour `h`, added to the start of the reading year. */
  lemma ReferenceDayAt(now: DateTime, h: int)
    requires Valid(now) && ValidDate(1900, now.month, now.day)
    ensures DaysFrom1900(1900, now.month, now.day) * 86400 + h * 3600 + YearStart(now.year) == ShiftedSameDay(now, h)
  {
    DayOf1900InYear(now.year, now.month, now.day);
  }

  /** "Arvioitu kesto: 14:00 asti." on a day that exists in 1900: the reference month and day
      counted in 1900 at 14:00. */
  lemma UntilTwoEstimate(text: string, now: DateTime) returns (x: int)
    requires text == LeadIn + "14:00 asti." && Valid(now) && ValidDate(1900, now.month, now.day)
    ensures x == DaysFrom1900(1900, now.month, now.day) * 86400 + 14 * 3600 + YearStart(now.year)
    ensures EstimatedEnd(text, now) == Ok(Some(HelsinkiTime(x)))
  {
    var e := "14:00 asti.";
    AfterLeadIn(e, now);
    var ms := UntilTwoMatches(e);
    x := UntilClockEstimate(ms, now);
  }

  lemma UntilClockEstimate(ms: seq<Option<Captures>>, now: DateTime) returns (x: int)
    requires Valid(now) && ValidDate(1900, now.month, now.day)
    requires |ms| > 1 && ms[0] == None && ms[1] == Some(Captures(None, "14:00"))
    ensures x == DaysFrom1900(1900, now.month, now.day) * 86400 + 14 * 3600 + YearStart(now.year)
    ensures TryShapes(ms, now, 0) == Ok(Some(HelsinkiTime(x)))
  {
    var c := Captures(None, "14:00");
    var day := DaysFrom1900(1900, now.month, now.day) * 86400;
    assert DayPart(c, now) == Ok(day);
    ClockUnderTimeFormats("14:00");
    var t := DateTime(1900, 1, 1, 14, 0, 0);
    TryShapesHit(ms, now, 1, c, day, t);
    assert TryShapes(ms, now, 0) == TryShapes(ms, now, 1);
    x := day + SecondsFrom1900(t) + YearStart(now.year);
  }
}
