/** `PoikkeusInfoFilter`: keeps the notifications that concern a configured line and names each
    kept one after the first rule, in the order of the configuration, that one of its lines meets. */
module Filter {
  import opened Wrappers
  import opened Records

  /** One entry of the configuration: the keys it declares, `None` for a key it leaves out. */
  datatype Rule = Rule(lineType: Option<string>, directions: Option<seq<string>>, numbers: Option<seq<string>>)

  /** A parsed notification as the filter receives it: the record, and the "display_name" the
      filter writes into it in place. */
  class Notification {
    const record: Disruption
    var displayName: Option<string>

    constructor(record: Disruption)
      ensures this.record == record && displayName == None
    {
      this.record := record;
      displayName := None;
    }
  }

  /** The line meets every constraint the rule declares. A line whose code the tables did not
      know is stored as `None`, which equals no configured name. */
  predicate Admits(rule: Rule, line: TargetLine) {
    && (rule.lineType.Some? ==> line.lineType.Some? && LineTypeName(line.lineType.value) == rule.lineType.value)
    && (rule.directions.Some? ==> line.direction.Some? && DirectionName(line.direction.value) in rule.directions.value)
    && (rule.numbers.Some? ==> line.number in rule.numbers.value)
  }

  /** Some line of the notification meets the rule. */
  predicate AnyAdmitted(rule: Rule, lines: seq<TargetLine>) {
    exists k | 0 <= k < |lines| :: Admits(rule, lines[k])
  }

  /** The name of the first rule from position `i` on that some line meets. */
  function FirstMatch(rules: seq<(string, Rule)>, lines: seq<TargetLine>, i: nat): (r: Option<string>)
    requires i <= |rules|
    decreases |rules| - i
  {
    if i == |rules| then None
    else if AnyAdmitted(rules[i].1, lines) then Some(rules[i].0)
    else FirstMatch(rules, lines, i + 1)
  }

  /** What `filter_item` decides for a record: nothing when it is not valid or has no lines,
      otherwise the first matching rule's name. */
  function Verdict(rules: seq<(string, Rule)>, d: Disruption): (r: Option<string>)
  {
    if !d.validity.valid || d.lines.None? then None else FirstMatch(rules, d.lines.value, 0)
  }

  /** The notifications `filter` keeps, in their order. */
  function Kept(rules: seq<(string, Rule)>, items: seq<Notification>): (r: seq<Notification>)
  {
    if items == [] then []
    else
      var last := items[|items| - 1];
      Kept(rules, items[..|items| - 1]) + (if Verdict(rules, last.record).Some? then [last] else [])
  }

  class LineFilter {
    /** `self.config`, its entries in iteration order. */
    const rules: seq<(string, Rule)>

    constructor(rules: seq<(string, Rule)>)
      ensures this.rules == rules
    {
      this.rules := rules;
    }

    /** `filter_item`: the rules in order and, for each, the lines in order; the first line that
        passes every declared constraint names the item, which is returned itself. */
    method FilterItem(item: Notification) returns (r: Option<Notification>)
      modifies item
      ensures r == (if Verdict(rules, item.record).Some? then Some(item) else None)
      ensures item.displayName ==
        (if Verdict(rules, item.record).Some? then Verdict(rules, item.record) else old(item.displayName))
    {
      if !item.record.validity.valid || item.record.lines.None? {
        return None;
      }
      var lines := item.record.lines.value;
      var i := 0;
      while i < |rules|
        invariant 0 <= i <= |rules|
        invariant FirstMatch(rules, lines, i) == Verdict(rules, item.record)
        invariant item.displayName == old(item.displayName)
      {
        var name := rules[i].0;
        var rule := rules[i].1;
        var j := 0;
        while j < |lines|
          invariant 0 <= j <= |lines|
          invariant forall k | 0 <= k < j :: !Admits(rule, lines[k])
          invariant item.displayName == old(item.displayName)
        {
          var line := lines[j];
          j := j + 1;
          if rule.lineType.Some? && (line.lineType.None? || LineTypeName(line.lineType.value) != rule.lineType.value) {
            continue;
          }
          if rule.directions.Some? && (line.direction.None? || DirectionName(line.direction.value) !in rule.directions.value) {
            continue;
          }
          if rule.numbers.Some? && line.number !in rule.numbers.value {
            continue;
          }
          item.displayName := Some(name);
          return Some(item);
        }
        i := i + 1;
      }
      return None;
    }

    /** `filter`: every item through `filter_item`, the kept ones appended in order. */
    method Filter(items: seq<Notification>) returns (kept: seq<Notification>)
      modifies items
      ensures kept == Kept(rules, items)
      ensures forall o | o in items ::
        o.displayName == (if Verdict(rules, o.record).Some? then Verdict(rules, o.record) else old(o.displayName))
    {
      kept := [];
      var i := 0;
      while i < |items|
        invariant 0 <= i <= |items|
        invariant kept == Kept(rules, items[..i])
        invariant forall o | o in items[..i] ::
          o.displayName == (if Verdict(rules, o.record).Some? then Verdict(rules, o.record) else old(o.displayName))
        invariant forall o | o in items[i..] && o !in items[..i] :: o.displayName == old(o.displayName)
      {
        var filtered := FilterItem(items[i]);
        assert items[..i + 1][..i] == items[..i];
        if filtered.Some? {
          kept := kept + [filtered.value];
        }
        i := i + 1;
      }
      assert items[..|items|] == items;
    }
  }

  /** The rule matched from position `i` on is the first there that some line meets. */
  lemma {:induction false} FirstMatchMeaning(rules: seq<(string, Rule)>, lines: seq<TargetLine>, i: nat)
    requires i <= |rules|
    ensures FirstMatch(rules, lines, i).None? <==> forall j | i <= j < |rules| :: !AnyAdmitted(rules[j].1, lines)
    ensures FirstMatch(rules, lines, i).Some? ==>
      exists j | i <= j < |rules| :: rules[j].0 == FirstMatch(rules, lines, i).value && AnyAdmitted(rules[j].1, lines)
        && forall k | i <= k < j :: !AnyAdmitted(rules[k].1, lines)
    decreases |rules| - i
  {
    if i < |rules| {
      if AnyAdmitted(rules[i].1, lines) {
        assert rules[i].0 == FirstMatch(rules, lines, i).value;
      } else {
        FirstMatchMeaning(rules, lines, i + 1);
        if FirstMatch(rules, lines, i).Some? {
          var j :| i + 1 <= j < |rules| && rules[j].0 == FirstMatch(rules, lines, i).value
            && AnyAdmitted(rules[j].1, lines) && forall k | i + 1 <= k < j :: !AnyAdmitted(rules[k].1, lines);
          assert forall k | i <= k < j :: !AnyAdmitted(rules[k].1, lines);
        }
      }
    }
  }

  /** A record that is not valid, or has no lines at all, or an empty list of lines, is dropped;
      any other is kept exactly when some rule is met by one of its lines. */
  lemma VerdictMeaning(rules: seq<(string, Rule)>, d: Disruption)
    ensures !d.validity.valid || d.lines.None? || d.lines == Some([]) ==> Verdict(rules, d).None?
    ensures Verdict(rules, d).Some? <==>
      && d.validity.valid && d.lines.Some?
      && exists i | 0 <= i < |rules| :: AnyAdmitted(rules[i].1, d.lines.value)
  {
    if d.validity.valid && d.lines.Some? {
      FirstMatchMeaning(rules, d.lines.value, 0);
    }
  }

  /** The name given is that of the earliest rule some line meets: a rule met while no earlier
      one is gives its name. */
  lemma EarliestRuleNames(rules: seq<(string, Rule)>, d: Disruption, i: nat)
    requires d.validity.valid && d.lines.Some?
    requires i < |rules| && AnyAdmitted(rules[i].1, d.lines.value)
    requires forall j | 0 <= j < i :: !AnyAdmitted(rules[j].1, d.lines.value)
    ensures Verdict(rules, d) == Some(rules[i].0)
  {
    FirstMatchMeaning(rules, d.lines.value, 0);
    var j :| 0 <= j < |rules| && rules[j].0 == Verdict(rules, d).value && AnyAdmitted(rules[j].1, d.lines.value)
      && forall k | 0 <= k < j :: !AnyAdmitted(rules[k].1, d.lines.value);
    assert j == i;
  }

  /** With the distinct names of a dictionary, a rule declared after one that is met never names
      the notification. */
  lemma LaterRuleLoses(rules: seq<(string, Rule)>, d: Disruption, i: nat, j: nat)
    requires forall a, b | 0 <= a < b < |rules| :: rules[a].0 != rules[b].0
    requires d.validity.valid && d.lines.Some?
    requires i < j < |rules| && AnyAdmitted(rules[i].1, d.lines.value)
    ensures Verdict(rules, d).Some? && Verdict(rules, d) != Some(rules[j].0)
  {
    FirstMatchMeaning(rules, d.lines.value, 0);
    var k :| 0 <= k < |rules| && rules[k].0 == Verdict(rules, d).value && AnyAdmitted(rules[k].1, d.lines.value)
      && forall m | 0 <= m < k :: !AnyAdmitted(rules[m].1, d.lines.value);
    assert k <= i;
  }

  /** `filter` keeps only notifications the rules name, which are valid and have lines, and
      keeps every one of those. */
  lemma {:induction false} KeptMeaning(rules: seq<(string, Rule)>, items: seq<Notification>)
    ensures |Kept(rules, items)| <= |items|
    ensures forall o | o in Kept(rules, items) ::
      o in items && Verdict(rules, o.record).Some? && o.record.validity.valid && o.record.lines.Some?
    ensures forall o | o in items && Verdict(rules, o.record).Some? :: o in Kept(rules, items)
  {
    if items != [] {
      var init := items[..|items| - 1];
      KeptMeaning(rules, init);
      assert items == init + [items[|items| - 1]];
    }
  }

  /** `filter` keeps order: filtering a concatenation is concatenating the filtered parts. */
  lemma {:induction false} KeptConcat(rules: seq<(string, Rule)>, a: seq<Notification>, b: seq<Notification>)
    ensures Kept(rules, a + b) == Kept(rules, a) + Kept(rules, b)
    decreases |b|
  {
    if b != [] {
      var init := b[..|b| - 1];
      assert (a + b)[..|a + b| - 1] == a + init;
      KeptConcat(rules, a, init);
    } else {
      assert a + b == a;
    }
  }

  /** Filtering what was kept keeps all of it. */
  lemma {:induction false} KeptIdempotent(rules: seq<(string, Rule)>, items: seq<Notification>)
    ensures Kept(rules, Kept(rules, items)) == Kept(rules, items)
  {
    if items != [] {
      var init := items[..|items| - 1];
      var last := items[|items| - 1];
      KeptIdempotent(rules, init);
      var tail := if Verdict(rules, last.record).Some? then [last] else [];
      KeptConcat(rules, Kept(rules, init), tail);
      if tail != [] {
        assert tail[..0] == [];
      }
    }
  }

  /** `LINES` of the local settings, in the order they are written. */
  const Lines: seq<(string, Rule)> := [
    ("6(T)", Rule(Some("tram"), Some(["to_centrum"]), Some(["6", "6T"]))),
    ("7B", Rule(Some("tram"), Some(["from_centrum"]), Some(["7B"]))),
    ("7A", Rule(Some("tram"), Some(["to_centrum"]), Some(["7A"]))),
    ("metro", Rule(Some("metro"), Some(["to_centrum"]), None)),
    ("64", Rule(Some("helsinki"), Some(["from_centrum"]), Some(["64"]))),
    ("65A/66A", Rule(Some("helsinki"), Some(["to_centrum"]), Some(["65A", "66A"])))
  ]

  /** No line meets two rules of `LINES`, so for a notification with one line the iteration order
      of the dictionary does not change the name it gets. */
  lemma LinesRulesDisjoint(line: TargetLine)
    ensures forall i, j | 0 <= i < j < |Lines| :: !(Admits(Lines[i].1, line) && Admits(Lines[j].1, line))
  {
    if line.lineType.Some? && line.direction.Some? {
      LineTypeTable(line.lineType.value);
      DirectionTable(line.direction.value);
    }
  }

  /** A tram "6T" towards the centre is shown as "6(T)". */
  lemma TramSixExample(id: string, validity: Validity)
    requires validity.valid
    ensures forall kind, source, info ::
      Verdict(Lines, Disruption(id, kind, source, info,
        Some([TargetLine(id, Some(ToCentrum), Some(Tram), "6T")]), validity)) == Some("6(T)")
  {
    var line := TargetLine(id, Some(ToCentrum), Some(Tram), "6T");
    assert Admits(Lines[0].1, [line][0]);
    assert AnyAdmitted(Lines[0].1, [line]);
  }
}
