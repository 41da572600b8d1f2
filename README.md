# poikkeusinfo: disruption feed parser and line filter

This project models the parse-and-filter core of `poikkeusinfo.py`. That core reads the
Helsinki public-transport disruption feed ("poikkeusinfo") and turns each DISRUPTION element
into a record holding:

- the notification's id, type and source;
- the Finnish info text, with two fields read from its free prose: the estimated end of the
  disruption ("Arvioitu kesto: …") and its cause ("Syy: …"), unified through a table of synonyms;
- the affected lines;
- the validity window.

A filter then keeps the notifications for which some configured rule is met by one of the
affected lines. It names each kept notification after the first rule that matches, in the order
of the configuration.

The model is written in Dafny, one module per concern:

| module | file | what it holds |
|---|---|---|
| `Wrappers`, `Errors` | `wrappers.dfy`, `errors.dfy` | `Option` and `Result`, and the exceptions the Python code can raise (`KeyError` on the tree or on a code table, `TypeError`/`AttributeError` on a wrongly shaped element, `ValueError` from `strptime`, and `datetime(1900, 2, 29)`) |
| `Text` | `text.dfy` | the string operations the code relies on (`in`, `split(sep)[1]`, `strip()`, the first line) |
| `Calendar` | `calendar.dfy` | proleptic Gregorian dates and the seconds since 1900-01-01, which is where Python's datetime arithmetic in `parse_length` starts |
| `Strptime`, `StrptimeTokens` | `strptime.dfy` | `datetime.strptime` for the directives of `DATE_FORMATS`, `TIME_FORMATS` and the ISO format, with backtracking over each directive's alternatives and the `ValueError` cases |
| `TimeShapes` | `time_shapes.dfy` | the three `TIME_RE` regular expressions, written out as matchers with their backtracking |
| `Length` | `length.dfy` | `parse_length` |
| `Reason` | `reason.dfy` | `REASON_RE`, `REASON_MAP` and `parse_reason` |
| `Xml` | `xml.dfy` | the tree `xmltodict` produces, and indexing and `in` on it as Python behaves on `None`, strings, dictionaries and lists |
| `Records` | `records.dfy` | the code tables and the records the parser builds |
| `Parser` | `parser.dfy` | `parse_info`, `parse_targets`, `parse_isoformat`, `parse_validity`, `parse_item` and `parse` |
| `Filter` | `filter.dfy` | `PoikkeusInfoFilter` as a class, and the `LINES` configuration of `local_settings.py` |

Each Python function that loops is modelled twice:

- a `method` with the same loop;
- a function stating what the loop computes.

The method's `ensures` ties the two together, and lemmas state what the function means. An
error the Python code raises becomes an `Err` value. A timestamp is the number of seconds since
1900-01-01 00:00 wall-clock time, tagged with the Europe/Helsinki zone.

Where the code and the design description of the system disagree, the model follows the code:

- `parse` returns `None`, not an empty list, when the root element is not DISRUPTIONS.
- `parse` raises when the root has nothing in it at all.
- A missing TARGETS element raises `KeyError`; only an empty one gives `None`.
- A missing TEXT element raises too, and a TEXT list element without "@lang" raises.
- The tree is not normalised to lists: `parse`, `parse_targets` and `parse_info` each handle a
  lone element and a list of them separately.
- `parse_length` counts the end date's day of the year in 1900 and then adds the start of the
  reference year. In a leap year, a date after February therefore comes out one day early:
  - "10:00 - 23.05. klo 14:00" read in 2024 gives 2024-05-22 14:00, not 2024-05-23;
  - "18:00 asti." read on 2024-03-10 gives 2024-03-09 18:00.
- With no end date, reading on February 29 raises, since `datetime(1900, 2, 29)` does not exist.
- The first pattern's end time takes a one-digit hour without its minutes: "klo 9:30" ends at
  9:00 (`Length.LeapYearEstimate`).

## Model

| member | source | states |
|---|---|---|
| `Text.SecondPiece` | poikkeusinfo.py:133 | `text.split(sep)[1]`: the text after the first separator, up to the next separator or the end, and without the separator in it |
| `Text.SecondPieceAfter` | poikkeusinfo.py:133 | when the first separator follows a prefix and does not occur again, the second piece is all the text after it |
| `Strptime.FirstParseIsFirst` | poikkeusinfo.py:142-148 | a loop over formats gives nothing exactly when every format raises, and otherwise the result of the first format that does not raise |
| `StrptimeTokens.ClockUnderTimeFormats` | poikkeusinfo.py:152-159 | `TIME_FORMATS` read an `H:MM` token as that hour and minute on 1900-01-01 when both are in range, and raise otherwise |
| `StrptimeTokens.HoursUnderTimeFormats` | poikkeusinfo.py:152-159 | `TIME_FORMATS` read a one- or two-digit token as a whole hour when it is at most 23, and raise otherwise |
| `StrptimeTokens.DayMonthUnderDateFormats` | poikkeusinfo.py:45-51 | on a captured `end_date` only "%d.%m" can apply; it gives that day of 1900 when the day exists in 1900, and every format raises otherwise |
| `StrptimeTokens.IsoRoundTrip` | poikkeusinfo.py:204-208 | any real datetime written as `YYYY-MM-DDTHH:MM:SS` parses back under "%Y-%m-%dT%H:%M:%S" to itself |
| `TimeShapes.ClockOrHourEnds` | poikkeusinfo.py:38-42 | the places where a time group can end, in the order the regex engine tries them; each spans an `H:MM` or one- or two-digit token, and there are none exactly when no digit is there |
| `TimeShapes.FirstOf` | poikkeusinfo.py:38-42 | backtracking into the leading time group: no match exactly when no end of it lets the rest of the pattern match |
| `TimeShapes.Match` | poikkeusinfo.py:134-135 | a match of a `TIME_RE` pattern starts with a digit and captures groups shaped as the pattern's character classes say; the first pattern needs "klo" or "kello"; the second captures the whole text before its end-anchored "asti." tail |
| `TimeShapes.NoEndFits` | poikkeusinfo.py:38-42 | a pattern does not match when no end of the leading time group lets the rest of it match |
| `TimeShapes.OneDigitHourLosesMinutes` | poikkeusinfo.py:39 | on "10:00 - 23.05 klo 9:30" the first pattern captures "23.05" and the hour "9" alone |
| `TimeShapes.KeywordIsMandatory` | poikkeusinfo.py:39 | a text without a 'k' never matches the first pattern |
| `TimeShapes.MonthNeedsTwoDigits` | poikkeusinfo.py:39 | a one-digit month ("23.5") does not match the first pattern |
| `TimeShapes.UntilClockExamples` | poikkeusinfo.py:40 | the second pattern reads "14:00 asti." and is anchored at the end, so "14 tai myöhemmin" does not match |
| `TimeShapes.ClockRangeExample` | poikkeusinfo.py:41 | the third pattern is not anchored at the end: "10-12 muutoksia" gives end time "12" |
| `Calendar.DayOf1900InYear` | poikkeusinfo.py:145-156 | a day counted in 1900 and added to January 1 of year Y is that day of Y, one day early in a leap year after February |
| `Length.ParseLength` | poikkeusinfo.py:125-160 | the loops over patterns, date formats and time formats compute the estimate `EstimatedEnd` defines |
| `Length.TryShape` | poikkeusinfo.py:135-159 | one pattern either settles the result or passes to the next pattern, as `TryShapes` defines |
| `Length.DateOffset` | poikkeusinfo.py:139-150 | the date part is the day of the first date format that parses `end_date` (nothing when none does), when it was captured, and the reference month and day in 1900 otherwise |
| `Length.ParseFirst` | poikkeusinfo.py:152-159 | the loop over a list of formats stops at the first `strptime` that does not raise |
| `Length.DayPartMeaning` | poikkeusinfo.py:139-150 | the date part counts a day of 1900: the captured one, January 1 when it does not exist in 1900, or the reference day, which raises exactly on February 29 |
| `Length.EndTimeMeaning` | poikkeusinfo.py:152-155 | a parsed end time is an hour and minute on 1900-01-01 with no seconds |
| `Length.TryShapesOutcome` | poikkeusinfo.py:134-160 | trying the patterns ends in an estimate made of a day and time of 1900, in nothing, or in the February 29 error |
| `Length.EstimateInReferenceYear` | poikkeusinfo.py:125-160 | an estimate lies within the reference year: some month, day, hour and minute of that year, a day early after February of a leap year; the only error is reading on February 29 |
| `Length.AfterLeadIn` | poikkeusinfo.py:128-133 | a text opening with the lead-in "Arvioitu kesto: ", and not containing it again, is read from just after it |
| `Length.AfterLeadInAt` | poikkeusinfo.py:128-133 | wherever the first lead-in stands, the patterns are tried on all the text after it, when the lead-in does not occur again |
| `Length.EndTimeFits` | poikkeusinfo.py:152-159 | a captured end time parses under `TIME_FORMATS` exactly when its hour is at most 23 and its minutes at most 59, and then adds those hours and minutes |
| `Length.PassOn` | poikkeusinfo.py:134-159 | a pattern that does not match, or matches with an end time no format parses (and a date part that does not raise), hands over to the next pattern |
| `Length.Settles` | poikkeusinfo.py:134-159 | a pattern that matches and does not pass on settles the result: the February 29 error, or its day counted in 1900 at its end time in the reference year |
| `Length.PassThrough` | poikkeusinfo.py:134-159 | patterns that pass on leave the result to the patterns after them |
| `Length.SettledAt` | poikkeusinfo.py:134-160 | the first pattern that does not pass on decides the result |
| `Length.AllPassOn` | poikkeusinfo.py:134-160 | when every pattern passes on, the result is nothing |
| `Length.FirstToSettle` | poikkeusinfo.py:134-160 | when some pattern does not pass on, there is a first such pattern |
| `Length.TryShapesMeaning` | poikkeusinfo.py:134-160 | the loop over the patterns gives nothing exactly when every pattern passes on, and otherwise what the first pattern that does not pass on settles |
| `Length.EstimatedEndMeaning` | poikkeusinfo.py:125-160 | `parse_length` in closed form: nothing without the lead-in, and otherwise the outcome of the first pattern that does not pass on, over the text after the first lead-in |
| `Length.LeapYearEstimate` | poikkeusinfo.py:139-157 | "Arvioitu kesto: 10:00 - 23.05 klo 9:30" read on any day of 2024 ends on 2024-05-22 at 9:00 |
| `Length.LeapDayRaises` | poikkeusinfo.py:149-150 | "Arvioitu kesto: 14:00 asti." read on 2024-02-29 raises |
| `Length.UntilClockOnDay` | poikkeusinfo.py:149-157 | "Arvioitu kesto: 14:00 asti." read on any day that exists in 1900 ends at 14:00 that day, a day early after February of a leap year |
| `Reason.ParseReasonMeaning` | poikkeusinfo.py:162-169 | a reason is found exactly when "Syy:" occurs on the first line; it is the stripped group looked up once, and never a key of `REASON_MAP` |
| `Reason.ReasonGroupShape` | poikkeusinfo.py:87 | `REASON_RE` matches exactly when "Syy:" occurs on the first line, and its group then sits after the last "Syy:" of that line, past the whitespace, up to a dot or the end |
| `Reason.GroupAtDetermines` | poikkeusinfo.py:87 | any placement of a group that reads as the pattern says is the one the match finds |
| `Reason.PlainReason` | poikkeusinfo.py:162-169 | "Syy: " followed by a one-line phrase without a dot or a "Syy:" of its own, and then a dot, reads as that phrase, unified |
| `Reason.WeatherExample` | poikkeusinfo.py:162-169 | "Syy: tien liukkaus." reads as "sääolosuhteet" |
| `Reason.NormalizeLeavesNoKey` | poikkeusinfo.py:167 | looking a reason up gives a unified name when the map knows it and the reason itself otherwise, and never a key of the map |
| `Reason.NormalizeIdempotent` | poikkeusinfo.py:167 | looking a reason up twice is looking it up once |
| `Reason.ValuesAreCategories` | poikkeusinfo.py:96-123 | every value of `REASON_MAP` is one of the ten unified names |
| `Reason.CategoriesAreNotKeys` | poikkeusinfo.py:96-123 | no unified name is a key of `REASON_MAP` |
| `Xml.Child` | poikkeusinfo.py:224-229 | indexing a child tag succeeds exactly on a dictionary holding the tag, raises `KeyError` on a dictionary without it, and `TypeError` on anything else |
| `Xml.Attr` | poikkeusinfo.py:224-226 | indexing an "@" key behaves as indexing a child does, on the attributes |
| `Xml.TextOf` | poikkeusinfo.py:201 | indexing "#text" behaves as indexing a child does, on the text |
| `Xml.HasChild` | poikkeusinfo.py:240 | `in` for a child tag on an element is key membership for a dictionary, a substring test for a string, and raises for `None` |
| `Xml.Members` | poikkeusinfo.py:198-199 | a single element is wrapped in a list of one, and a list is taken as it is |
| `Records.LineTypeOf` | poikkeusinfo.py:72-84 | an unknown line-type code gives `None`, a known one its table value |
| `Records.DirectionOf` | poikkeusinfo.py:90-93 | an unknown direction code gives `None`, a known one its table value |
| `Records.LineTypeTable` | poikkeusinfo.py:72-84 | every line type has a code, and line types with the same name are the same |
| `Records.LineTypeCodesDistinct` | poikkeusinfo.py:72-84 | different codes name different line types |
| `Records.DirectionTable` | poikkeusinfo.py:90-93 | both directions have a code, and they have different names |
| `Parser.ParseInfo` | poikkeusinfo.py:171-189 | the loop over the TEXT list with its `break`, and the record built from the chosen element, compute `InfoOf` |
| `Parser.FirstFinnishMeaning` | poikkeusinfo.py:174-178 | the TEXT loop finds nothing exactly when every element has a language and none is Finnish; otherwise it gives the first Finnish element, or raises at the first element without a language, all the earlier ones being in another language |
| `Parser.ChosenTextMeaning` | poikkeusinfo.py:173-180 | a lone TEXT element is taken without a language check, and from a list the first Finnish one is chosen |
| `Parser.InfoOfMeaning` | poikkeusinfo.py:171-189 | the info record exists exactly when the chosen element is a dictionary with text whose length does not raise; it holds that text, its reason and its estimated end |
| `Parser.InfoFromMeaning` | poikkeusinfo.py:181-189 | the record is made exactly of a chosen dictionary with text |
| `Parser.ParseTargets` | poikkeusinfo.py:191-202 | the loop over LINE elements computes `LinesOf` |
| `Parser.ParseLines` | poikkeusinfo.py:200-201 | the inner loop appends one entry per LINE element, or raises at the first one that cannot be read |
| `Parser.LineOfMeaning` | poikkeusinfo.py:201 | a LINE element is read exactly when it is a dictionary with "@id", "@direction", "@linetype" and text; the entry holds those, an unknown code becoming `None` |
| `Parser.LinesOfMeaning` | poikkeusinfo.py:191-202 | targets give `None` exactly for an empty element, `[]` without LINE, and otherwise one entry per LINE element in document order, a lone one counting as a list of one |
| `Parser.CollectPointwise` | poikkeusinfo.py:244-245 | appending in a loop gives one value per element in order, or the error of the first element that raises |
| `Parser.IsoStampRoundTrip` | poikkeusinfo.py:204-208 | what `isoformat()` writes for a datetime, without offset, reads back as the same Helsinki wall-clock time |
| `Parser.IsoStampMeaning` | poikkeusinfo.py:204-208 | `parse_isoformat` raises exactly when `strptime` rejects the text, and otherwise gives a datetime that exists |
| `Parser.ValidityMeaning` | poikkeusinfo.py:210-219 | the validity is read exactly when the three attributes exist and both timestamps parse; `valid` is the status being "1" |
| `Parser.ParseItem` | poikkeusinfo.py:221-231 | reading one disruption, through the looping parts, computes `ItemOf` |
| `Parser.ItemOfMeaning` | poikkeusinfo.py:221-231 | a record holds the item's id, the table values of its type and source codes, and the info, targets and validity as parsed |
| `Parser.UnknownTypeRaises` | poikkeusinfo.py:225 | a type code missing from `TYPE_MAP` raises instead of defaulting |
| `Parser.UnknownSourceRaises` | poikkeusinfo.py:226 | a source code missing from `SOURCE_MAP` raises instead of defaulting |
| `Parser.ParseFeed` | poikkeusinfo.py:233-246 | `parse` computes `FeedOf` |
| `Parser.ParseItems` | poikkeusinfo.py:244-245 | the loop over DISRUPTION elements appends one record per element, or raises at the first one that cannot be read |
| `Parser.FeedOfMeaning` | poikkeusinfo.py:233-246 | `parse` gives `None` exactly when the root is not DISRUPTIONS, raises for an empty root, gives `[]` without DISRUPTION, and otherwise one record per DISRUPTION in document order |
| `Filter.LineFilter.constructor` | poikkeusinfo.py:252-253 | the filter keeps the configuration it is given |
| `Filter.LineFilter.FilterItem` | poikkeusinfo.py:255-269 | an item is returned, itself, exactly when it is valid, has lines, and some rule is met by one of them; its display name becomes the first such rule's name, and is untouched otherwise |
| `Filter.LineFilter.Filter` | poikkeusinfo.py:271-279 | the kept items are exactly the named ones, in order, and every item's display name is set as `filter_item` sets it |
| `Filter.FirstMatchMeaning` | poikkeusinfo.py:260-269 | the rule found is the first rule that some line meets, and none is found exactly when no rule is met |
| `Filter.VerdictMeaning` | poikkeusinfo.py:258-269 | an invalid item, or one without lines, is dropped; any other is kept exactly when some rule is met by one of its lines |
| `Filter.EarliestRuleNames` | poikkeusinfo.py:260-268 | a rule met while no earlier rule is gives the item its name |
| `Filter.LaterRuleLoses` | poikkeusinfo.py:260-268 | with distinct rule names, a rule after one that is met never names the item |
| `Filter.KeptMeaning` | poikkeusinfo.py:271-279 | `filter` keeps only named items, which are valid and have lines, and keeps every named item |
| `Filter.KeptConcat` | poikkeusinfo.py:271-279 | filtering a concatenation is concatenating the filtered parts |
| `Filter.KeptIdempotent` | poikkeusinfo.py:271-279 | filtering what was kept keeps all of it |
| `Filter.LinesRulesDisjoint` | local_settings.py:5-35 | no line meets two rules of `LINES`, so the iteration order of the dictionary does not change the name a one-line item gets |
| `Filter.TramSixExample` | local_settings.py:6-10 | a valid notification about tram "6T" towards the centre is named "6(T)" |

## Left out

- `PoikkeusInfoRunner`, the `main` function and `DateTimeEncoder` are not part of this model. They
  fetch over HTTP, publish to redis, log, sleep and encode JSON.
- XML decoding is left out: `xmltodict.parse` itself and malformed documents. The model starts
  from the decoded tree.
- The Europe/Helsinki zone is a tag on the timestamp. Daylight-saving offsets and `localize`'s
  handling of ambiguous or missing local times are not modelled.
- `datetime.strptime` and `re` are modelled only for the formats and patterns the parser uses,
  not in general.
- `re.IGNORECASE` inside `strptime` is modelled only for the ASCII letters that occur in those
  formats.
- Python 2 byte and unicode strings are not distinguished: `.encode("utf-8")` is the identity on
  the model's strings. Whitespace is ASCII whitespace, both for `\s` and for `strip()`.
- The configuration is an ordered sequence of rules. Python 2 iterates a dictionary in hash
  order, which the model does not compute. `Filter.LinesRulesDisjoint` shows this order does not
  matter for the rules of `LINES` and a one-line notification.
- `Xml.Node`: "#text" is always a string, since `xmltodict` never produces any other value there.
- `Filter.Rule`: a configured rule always has lists of `directions` and `numbers`, or leaves
  them out. A rule configured with `None` or a plain string for them is not modelled; the rules
  of `LINES` use neither.
- `Filter.LineFilter.FilterItem`: the display name is a field of the notification object rather
  than a key added to a dictionary; the record's other keys cannot change.
