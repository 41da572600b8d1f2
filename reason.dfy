/** `parse_reason`: the cause of a disruption, read from the free text after "Syy:" and unified
    through `REASON_MAP`. */
module Reason {
  import opened Wrappers
  import opened Text

  const Marker: string := "Syy:"

  /** `REASON_MAP`: typo fixes and unified names for the causes the feed writes. */
  const ReasonMap: map<string, string> := map[
    "Helsinki City Marathon" := "yleisötapahtuma",
    "maraton" := "yleisötapahtuma",
    "sambakulkue" := "yleisötapahtuma",
    "liukkaus" := "sääolosuhteet",
    "tien liukkaus" := "sääolosuhteet",
    "Helsinki City Run" := "yleisötapahtuma",
    "Vantaa Triathlon" := "yleisötapahtuma",
    "lehtikelin aiheuttama liukkaus" := "sääolosuhteet",
    "keliolosuhteet" := "sääolosuhteet",
    "tekninen häiriö" := "tekninen vika",
    "Tietyö" := "tietyö",
    "Sääolosuhteet" := "sääolosuhteet",
    "kulkue" := "yleisötapahtuma",
    "juoksutapahtuma" := "yleisötapahtuma",
    "virtahäiriö" := "tekninen vika",
    "Työnseisaus" := "lakko",
    "tie poikki (viranomaisten toimesta)" := "tie poikki",
    "työnseisaus" := "lakko",
    "tietyömaa" := "tietyö",
    "työmaa" := "tietyö",
    "vaihdevika" := "tekninen vika radassa",
    "kiskotyöt" := "ratatyöt",
    "Este tiellä" := "este tiellä",
    "sääolosuhteet, ajolangat jäätyy" := "sääolosuhteet",
    "väärin pysäköidyt autot" := "väärin pysäköity auto",
    "väärin pysäköity auito" := "väärin pysäköity auto"
  ]

  /** The unified names `REASON_MAP` maps to. */
  const Categories: set<string> := {
    "yleisötapahtuma", "sääolosuhteet", "tekninen vika", "tietyö", "lakko", "tie poikki",
    "tekninen vika radassa", "ratatyöt", "este tiellä", "väärin pysäköity auto"
  }

  /** `REASON_MAP.get(reason, reason)`: one lookup, a phrase the map does not know passing through. */
  function Normalize(reason: string): string {
    if reason in ReasonMap then ReasonMap[reason] else reason
  }

  /** `REASON_RE.match(text)` and its `reason` group, for
      `.*Syy:\s*(?P<reason>[^\.]*)\.*`: the greedy `.*` cannot cross a line break and backs off
      to the last "Syy:" of the first line; the spaces after it are skipped (across lines too),
      and the group runs to the first dot or the end of the text. */
  function ReasonGroup(text: string): (r: Option<string>)
  {
    var line := FirstLine(text);
    match FindLast(line, Marker, |line|)
    case None => None
    case Some(p) =>
      var j := SkipSpaces(text, p + |Marker|);
      Some(text[j..IndexOfChar(text, '.', j)])
  }

  /** `parse_reason(text)`: the group with surrounding whitespace stripped, looked up once. */
  function ParseReason(text: string): (r: Option<string>)
  {
    match ReasonGroup(text)
    case None => None
    case Some(g) => Some(Normalize(Strip(g)))
  }

  /** Every value of `REASON_MAP` is one of the unified names. */
  lemma ValuesAreCategories()
    ensures forall k | k in ReasonMap :: ReasonMap[k] in Categories
  {
  }

  /** No unified name is itself a key of `REASON_MAP`. */
  lemma CategoriesAreNotKeys()
    ensures forall c | c in Categories :: c !in ReasonMap
  {
    EventNamesAreNotKeys();
    WorkNamesAreNotKeys();
    LongNamesAreNotKeys();
  }

  lemma EventNamesAreNotKeys()
    ensures "yleisötapahtuma" !in ReasonMap && "sääolosuhteet" !in ReasonMap && "tekninen vika" !in ReasonMap
  {
  }

  lemma WorkNamesAreNotKeys()
    ensures "tietyö" !in ReasonMap && "lakko" !in ReasonMap && "tie poikki" !in ReasonMap && "ratatyöt" !in ReasonMap
  {
  }

  lemma LongNamesAreNotKeys()
    ensures "tekninen vika radassa" !in ReasonMap && "este tiellä" !in ReasonMap
    ensures "väärin pysäköity auto" !in ReasonMap
  {
  }

  /** Whatever goes in, what comes out of the lookup is not a key of `REASON_MAP`. */
  lemma NormalizeLeavesNoKey(reason: string)
    ensures Normalize(reason) !in ReasonMap
    ensures reason in ReasonMap ==> Normalize(reason) in Categories
    ensures reason !in ReasonMap ==> Normalize(reason) == reason
  {
    ValuesAreCategories();
    CategoriesAreNotKeys();
  }

  /** Unifying twice is unifying once. */
  lemma NormalizeIdempotent(reason: string)
    ensures Normalize(Normalize(reason)) == Normalize(reason)
  {
    NormalizeLeavesNoKey(reason);
  }

  /** The last "Syy:" of `line` starts at `p`. */
  predicate LastMarkerAt(line: string, p: int) {
    0 <= p && OccursAt(line, Marker, p) && forall q | p < q < |line| :: !OccursAt(line, Marker, q)
  }

  /** From `i`, whitespace up to `j`, then `g` (no dot in it, not starting with whitespace), then
      the end of the text or a dot. */
  predicate GroupRuns(text: string, i: int, j: int, g: string) {
    && 0 <= i <= j && j + |g| <= |text|
    && (forall k | i <= k < j :: IsSpace(text[k]))
    && text[j..j + |g|] == g
    && '.' !in g && (|g| > 0 ==> !IsSpace(g[0]))
    && (j + |g| == |text| || text[j + |g|] == '.')
  }

  /** The text reads as the pattern says around group `g`: the last "Syy:" of the first line at
      `p`, whitespace up to `j`, then `g` up to the end of the text or a dot. */
  predicate GroupAt(text: string, p: int, j: int, g: string) {
    LastMarkerAt(FirstLine(text), p) && GroupRuns(text, p + |Marker|, j, g)
  }

  /** The pattern matches exactly when "Syy:" occurs on the first line, and then the group sits
      where the pattern puts it. */
  lemma ReasonGroupShape(text: string)
    ensures ReasonGroup(text).None? <==> !Contains(FirstLine(text), Marker)
    ensures ReasonGroup(text).Some? ==> exists p, j :: GroupAt(text, p, j, ReasonGroup(text).value)
  {
    var line := FirstLine(text);
    FindLastNoneIffAbsent(line, Marker);
    match FindLast(line, Marker, |line|)
    case None =>
    case Some(p) =>
      var j := SkipSpaces(text, p + |Marker|);
      GroupPlaced(text, p, j, IndexOfChar(text, '.', j));
  }

  /** The group `ReasonGroup` cuts out after the last marker reads as the pattern says. */
  lemma GroupPlaced(text: string, p: nat, j: nat, e: nat)
    requires FindLast(FirstLine(text), Marker, |FirstLine(text)|) == Some(p)
    requires p + |Marker| <= |text| && j == SkipSpaces(text, p + |Marker|) && e == IndexOfChar(text, '.', j)
    ensures GroupAt(text, p, j, text[j..e])
  {
    GroupRunsToDot(text, p + |Marker|);
  }

  /** Skipping whitespace from `i` and cutting at the next dot gives a group that runs from `i`. */
  lemma GroupRunsToDot(text: string, i: nat)
    requires i <= |text|
    ensures var j := SkipSpaces(text, i); GroupRuns(text, i, j, text[j..IndexOfChar(text, '.', j)])
  {
    var j := SkipSpaces(text, i);
    var g := text[j..IndexOfChar(text, '.', j)];
    assert |g| > 0 ==> g[0] == text[j];
    assert '.' !in g by {
      forall k | 0 <= k < |g| ensures g[k] != '.' {
        assert g[k] == text[j + k];
      }
    }
    assert text[j..j + |g|] == g;
  }

  /** The last occurrence is missing exactly when there is no occurrence at all. */
  lemma FindLastNoneIffAbsent(s: string, sep: string)
    requires |sep| > 0
    ensures FindLast(s, sep, |s|).None? <==> !Contains(s, sep)
  {
    if Contains(s, sep) {
      assert OccursAt(s, sep, Find(s, sep, 0).value);
    }
  }

  /** The group is where the pattern puts it: any placement that reads as the pattern says is
      the one the match finds. */
  lemma GroupAtDetermines(text: string, p: int, j: int, g: string)
    requires GroupAt(text, p, j, g)
    ensures ReasonGroup(text) == Some(g)
  {
    var line := FirstLine(text);
    var found := FindLast(line, Marker, |line|);
    assert found == Some(p);
    assert SkipSpaces(text, p + |Marker|) == j;
    assert IndexOfChar(text, '.', j) == j + |g|;
  }

  /** `parse_reason` answers exactly when "Syy:" occurs on the first line, with the stripped
      group looked up once, and never answers with a key of `REASON_MAP`. */
  lemma ParseReasonMeaning(text: string)
    ensures ParseReason(text).None? <==> !Contains(FirstLine(text), Marker)
    ensures ParseReason(text).Some? ==>
      && ParseReason(text).value !in ReasonMap
      && exists p, j, g :: GroupAt(text, p, j, g) && ParseReason(text).value == Normalize(Strip(g))
  {
    ReasonGroupShape(text);
    if ParseReason(text).Some? {
      NormalizeLeavesNoKey(Strip(ReasonGroup(text).value));
    }
  }

  /** The plainest text the pattern reads: "Syy: ", a one-line phrase without a dot (and without
      "Syy:" of its own), and a dot. */
  lemma PlainReason(g: string)
    requires |g| > 0 && !IsSpace(g[0]) && '.' !in g && '\n' !in g && !Contains(g, Marker)
    ensures ParseReason(Marker + " " + g + ".") == Some(Normalize(Strip(g)))
  {
    var text := Marker + " " + g + ".";
    PlainReasonPieces(g);
    SingleLine(text);
    OnlyMarkerAtStart(g);
    assert GroupAt(text, 0, 5, g);
    GroupAtDetermines(text, 0, 5, g);
  }

  lemma PlainReasonPieces(g: string)
    requires |g| > 0 && '\n' !in g
    ensures var text := Marker + " " + g + ".";
      && '\n' !in text
      && OccursAt(text, Marker, 0) && IsSpace(text[4])
      && text[5..5 + |g|] == g && text[5 + |g|] == '.'
  {
    var text := Marker + " " + g + ".";
    assert text[..4] == Marker;
  }

  /** A synonym is unified: "tien liukkaus" (slippery road) reads as weather. */
  lemma WeatherExample()
    ensures ParseReason("Syy: tien liukkaus.") == Some("sääolosuhteet")
  {
    WeatherText("Syy: tien liukkaus.");
  }

  lemma WeatherText(text: string)
    requires text == "Syy: tien liukkaus."
    ensures ParseReason(text) == Some("sääolosuhteet")
  {
    var g := WeatherPhrase(text);
    PlainReason(g);
  }

  /** The example's reason group. */
  lemma WeatherPhrase(text: string) returns (g: string)
    requires text == "Syy: tien liukkaus."
    ensures text == Marker + " " + g + "."
    ensures |g| > 0 && !IsSpace(g[0]) && '.' !in g && '\n' !in g && !Contains(g, Marker)
    ensures Normalize(Strip(g)) == "sääolosuhteet"
  {
    g := "tien liukkaus";
    assert text == Marker + " " + g + ".";
    WeatherGroup(g);
  }

  /** What the reason group "tien liukkaus" stands for. */
  lemma WeatherGroup(g: string)
    requires g == "tien liukkaus"
    ensures |g| > 0 && !IsSpace(g[0]) && '.' !in g && '\n' !in g && !Contains(g, Marker)
    ensures Normalize(Strip(g)) == "sääolosuhteet"
  {
    assert forall i | 0 <= i < |g| :: 'a' <= g[i] <= 'z' || g[i] == ' ';
    assert g[0] == 't' && g[|g| - 1] == 's';
    StripUnchanged(g);
    FindAbsent(g, Marker, 0);
    SlipperyRoadIsWeather();
  }

  lemma SlipperyRoadIsWeather()
    ensures "tien liukkaus" in ReasonMap && ReasonMap["tien liukkaus"] == "sääolosuhteet"
  {
  }

  /** A text without a line break is its own first line. */
  lemma SingleLine(s: string)
    requires '\n' !in s
    ensures FirstLine(s) == s
  {
    FindAbsent(s, "\n", 0);
  }

  /** In "Syy: " + `g` + ".", "Syy:" starts nowhere but at the beginning when `g` does not hold it:
      the next four characters are "yy: ", an occurrence inside `g` would be one of `g`, and one
      running into the final dot would need a dot in "Syy:". */
  lemma OnlyMarkerAtStart(g: string)
    requires !Contains(g, Marker)
    ensures var text := Marker + " " + g + ".";
      forall q | 0 < q < |text| :: !OccursAt(text, Marker, q)
  {
    var text := Marker + " " + g + ".";
    forall q | 0 < q < |text| ensures !OccursAt(text, Marker, q) {
      if q + 4 <= |text| {
        if q < 5 {
          assert text[q..q + 4][0] == text[q] != 'S';
        } else if q + 4 <= 5 + |g| {
          assert text[q..q + 4] == g[q - 5..q - 1];
          assert !OccursAt(g, Marker, q - 5);
        } else {
          assert text[q..q + 4][5 + |g| - q] == text[5 + |g|] == '.';
        }
      }
    }
  }
}
