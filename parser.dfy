/** `PoikkeusInfoParser` from the decoded tree on: the info text, the target lines, the validity
    window, one disruption record, and the whole feed. Each step is a function stating what it
    computes and, where the source loops, a method proved equal to it. */
module Parser {
  import opened Wrappers
  import opened Text
  import opened Calendar
  import opened Strptime
  import opened StrptimeTokens
  import opened Errors
  import opened Xml
  import opened Records
  import opened Reason
  import opened Length

  /* ---------- parse_info ---------- */

  /** The `for` loop over a list of TEXT elements from position `i` on: the first whose "@lang"
      is "fi", nothing when there is none, `KeyError` or `TypeError` from the first element
      without a language. */
  function FirstFinnish(items: seq<Node>, i: nat): (r: Result<Option<Node>, ParseError>)
    requires i <= |items|
    decreases |items| - i
  {
    if i == |items| then Ok(None)
    else
      var lang :- Attr(Single(items[i]), "lang");
      if lang == "fi" then Ok(Some(items[i])) else FirstFinnish(items, i + 1)
  }

  /** The text element `parse_info` settles on. `info["TEXT"]` is indexed before anything else;
      when it is not a list the `elif "TEXT" in info` branch always holds, since the indexing
      succeeded, and the element is taken without a language check. */
  function ChosenText(info: Field): (r: Result<Option<Node>, ParseError>)
  {
    var texts :- Child(info, "TEXT");
    match texts
    case Many(items) => FirstFinnish(items, 0)
    case Single(n) => Ok(Some(n))
  }

  /** The info record made of the chosen element: nothing for a false element (`None`, the empty
      string); for a string, `"#text" in s` is a substring test and a hit makes `s["#text"]` raise;
      for a dictionary, the record when it has text and nothing otherwise. */
  function InfoFrom(chosen: Option<Node>, now: DateTime): (r: Result<Option<InfoText>, ParseError>)
    requires Valid(now)
  {
    match chosen
    case None => Ok(None)
    case Some(n) =>
      if !Truthy(n) then Ok(None)
      else if IsStr(n) then (if Contains(n.text.value, "#text") then Err(WrongShape("#text")) else Ok(None))
      else if n.text.None? then Ok(None)
      else
        var text := n.text.value;
        var length :- EstimatedEnd(text, now);
        Ok(Some(InfoText(length, ParseReason(text), text)))
  }

  /** `parse_info(info, now)` */
  function InfoOf(info: Field, now: DateTime): (r: Result<Option<InfoText>, ParseError>)
    requires Valid(now)
  {
    var chosen :- ChosenText(info);
    InfoFrom(chosen, now)
  }

  /** `parse_info`: the loop over the TEXT list with its `break`, then the length, reason and
      text of the chosen element. */
  method ParseInfo(info: Field, now: DateTime) returns (r: Result<Option<InfoText>, ParseError>)
    requires Valid(now)
    ensures r == InfoOf(info, now)
  {
    var texts := Child(info, "TEXT");
    if texts.Err? {
      return Err(texts.error);
    }
    var chosen: Option<Node> := None;
    if texts.value.Many? {
      var items := texts.value.nodes;
      var i := 0;
      while i < |items|
        invariant 0 <= i <= |items|
        invariant FirstFinnish(items, i) == FirstFinnish(items, 0)
      {
        var lang := Attr(Single(items[i]), "lang");
        if lang.Err? {
          return Err(lang.error);
        }
        if lang.value == "fi" {
          chosen := Some(items[i]);
          break;
        }
        i := i + 1;
      }
      assert ChosenText(info) == Ok(chosen);
    } else {
      chosen := Some(texts.value.node);
    }
    if chosen.None? || !Truthy(chosen.value) {
      return Ok(None);
    }
    var n := chosen.value;
    if IsStr(n) {
      if Contains(n.text.value, "#text") {
        return Err(WrongShape("#text"));
      }
      return Ok(None);
    }
    if n.text.None? {
      return Ok(None);
    }
    var text := n.text.value;
    var length := ParseLength(text, now);
    if length.Err? {
      return Err(length.error);
    }
    return Ok(Some(InfoText(length.value, ParseReason(text), text)));
  }

  /* ---------- parse_targets ---------- */

  /** One entry of the lines list, read in the order of the dictionary display: "@id",
      "@direction", "@linetype", "#text". */
  function LineOf(n: Node): (r: Result<TargetLine, ParseError>)
  {
    var f := Single(n);
    var id :- Attr(f, "id");
    var direction :- Attr(f, "direction");
    var lineType :- Attr(f, "linetype");
    var number :- TextOf(f);
    Ok(TargetLine(id, DirectionOf(direction), LineTypeOf(lineType), number))
  }

  /** A list built by a loop that appends one value per element and stops at the first
      element that raises: every value in order, or the first error. */
  function Collect<T>(rs: seq<Result<T, ParseError>>): (r: Result<seq<T>, ParseError>)
  {
    if rs == [] then Ok([])
    else
      var init :- Collect(rs[..|rs| - 1]);
      var last :- rs[|rs| - 1];
      Ok(init + [last])
  }

  /** What reading each LINE element gives, in order. */
  function LineResults(ns: seq<Node>): (rs: seq<Result<TargetLine, ParseError>>)
    ensures |rs| == |ns| && forall k | 0 <= k < |ns| :: rs[k] == LineOf(ns[k])
  {
    seq(|ns|, k requires 0 <= k < |ns| => LineOf(ns[k]))
  }

  /** `parse_targets(targets)`: `None` for an empty element; `items()` raises on a string or a
      list; of the dictionary's keys only "LINE" contributes, a single element wrapped in a list. */
  function LinesOf(targets: Field): (r: Result<Option<seq<TargetLine>>, ParseError>)
  {
    match targets
    case Many(_) => Err(WrongShape("items"))
    case Single(n) =>
      if IsNull(n) then Ok(None)
      else if IsStr(n) then Err(WrongShape("items"))
      else if "LINE" !in n.children then Ok(Some([]))
      else
        var lines :- Collect(LineResults(Members(n.children["LINE"])));
        Ok(Some(lines))
  }

  /** `parse_targets`: the loop that appends one entry per LINE element. */
  method ParseTargets(targets: Field) returns (r: Result<Option<seq<TargetLine>>, ParseError>)
    ensures r == LinesOf(targets)
  {
    if targets.Many? {
      return Err(WrongShape("items"));
    }
    var n := targets.node;
    if IsNull(n) {
      return Ok(None);
    }
    if IsStr(n) {
      return Err(WrongShape("items"));
    }
    if "LINE" !in n.children {
      return Ok(Some([]));
    }
    var lines :- ParseLines(Members(n.children["LINE"]));
    return Ok(Some(lines));
  }

  /** The loop of `parse_targets` over the LINE elements, appending one entry per element. */
  method ParseLines(ns: seq<Node>) returns (r: Result<seq<TargetLine>, ParseError>)
    ensures r == Collect(LineResults(ns))
  {
    ghost var rs := LineResults(ns);
    var lines: seq<TargetLine> := [];
    var i := 0;
    while i < |ns|
      invariant 0 <= i <= |ns|
      invariant Collect(rs[..i]) == Ok(lines)
    {
      var line := LineOf(ns[i]);
      assert rs[..i + 1][..i] == rs[..i];
      if line.Err? {
        CollectStops(rs, i);
        return Err(line.error);
      }
      lines := lines + [line.value];
      i := i + 1;
    }
    assert rs[..|rs|] == rs;
    return Ok(lines);
  }

  /** A failing element makes the whole list fail with its error, once the elements before it
      read. */
  lemma {:induction false} CollectStops<T>(rs: seq<Result<T, ParseError>>, i: nat)
    requires i < |rs| && Collect(rs[..i]).Ok? && rs[i].Err?
    ensures Collect(rs) == Err(rs[i].error)
  {
    assert rs[..i + 1][..i] == rs[..i];
    if i + 1 < |rs| {
      CollectPrefixFails(rs, i + 1);
    } else {
      assert rs[..i + 1] == rs;
    }
  }

  /** Once a prefix fails, every longer prefix fails the same way. */
  lemma {:induction false} CollectPrefixFails<T>(rs: seq<Result<T, ParseError>>, k: nat)
    requires 0 < k <= |rs| && Collect(rs[..k]).Err?
    ensures Collect(rs) == Collect(rs[..k])
    decreases |rs| - k
  {
    if k < |rs| {
      assert rs[..k + 1][..k] == rs[..k];
      CollectPrefixFails(rs, k + 1);
    } else {
      assert rs[..k] == rs;
    }
  }

  /* ---------- parse_isoformat, parse_validity ---------- */

  /** `parse_isoformat(s)`: `strptime` under "%Y-%m-%dT%H:%M:%S", then the zone tag. */
  function IsoStamp(s: string): (r: Result<Stamp, ParseError>)
  {
    match Parse(IsoFormat, s)
    case None => Err(BadFormat(s))
    case Some(dt) => Ok(Localize(dt))
  }

  /** `parse_validity(validity)`: the flag first, then "@from" and "@to" each read and parsed. */
  function ValidityOf(f: Field): (r: Result<Validity, ParseError>)
  {
    var status :- Attr(f, "status");
    var fromText :- Attr(f, "from");
    var from :- IsoStamp(fromText);
    var toText :- Attr(f, "to");
    var to :- IsoStamp(toText);
    Ok(Validity(status == "1", from, to))
  }

  /* ---------- parse_item ---------- */

  /** `TYPE_MAP[code]`: a code the table does not list raises. */
  function TypeOf(code: string): (r: Result<NotificationType, ParseError>)
  {
    if code in TypeMap then Ok(TypeMap[code]) else Err(UnknownCode("TYPE_MAP", code))
  }

  /** `SOURCE_MAP[code]`: a code the table does not list raises. */
  function SourceOf(code: string): (r: Result<NotificationSource, ParseError>)
  {
    if code in SourceMap then Ok(SourceMap[code]) else Err(UnknownCode("SOURCE_MAP", code))
  }

  /** `parse_item(item, now)`, the fields in the order of the dictionary display. */
  function ItemOf(item: Node, now: DateTime): (r: Result<Disruption, ParseError>)
    requires Valid(now)
  {
    var f := Single(item);
    var id :- Attr(f, "id");
    var typeCode :- Attr(f, "type");
    var kind :- TypeOf(typeCode);
    var sourceCode :- Attr(f, "source");
    var source :- SourceOf(sourceCode);
    var infoField :- Child(f, "INFO");
    var info :- InfoOf(infoField, now);
    var targetsField :- Child(f, "TARGETS");
    var lines :- LinesOf(targetsField);
    var validityField :- Child(f, "VALIDITY");
    var validity :- ValidityOf(validityField);
    Ok(Disruption(id, kind, source, info, lines, validity))
  }

  /** `parse_item`, through the methods for the parts that loop. */
  method ParseItem(item: Node, now: DateTime) returns (r: Result<Disruption, ParseError>)
    requires Valid(now)
    ensures r == ItemOf(item, now)
  {
    var f := Single(item);
    var id :- Attr(f, "id");
    var typeCode :- Attr(f, "type");
    var kind :- TypeOf(typeCode);
    var sourceCode :- Attr(f, "source");
    var source :- SourceOf(sourceCode);
    var infoField :- Child(f, "INFO");
    var info :- ParseInfo(infoField, now);
    var targetsField :- Child(f, "TARGETS");
    var lines :- ParseTargets(targetsField);
    var validityField :- Child(f, "VALIDITY");
    var validity :- ValidityOf(validityField);
    return Ok(Disruption(id, kind, source, info, lines, validity));
  }

  /* ---------- parse ---------- */

  /** What parsing each DISRUPTION element gives, in order. */
  function ItemResults(ns: seq<Node>, now: DateTime): (rs: seq<Result<Disruption, ParseError>>)
    requires Valid(now)
    ensures |rs| == |ns| && forall k | 0 <= k < |ns| :: rs[k] == ItemOf(ns[k], now)
  {
    seq(|ns|, k requires 0 <= k < |ns| => ItemOf(ns[k], now))
  }

  /** `parse(content, now)` from the decoded document on: `None` when the root is not
      DISRUPTIONS; `"DISRUPTION" in root` raises for an empty root and is a substring test for a
      root with text only, after which indexing it raises; otherwise one record per DISRUPTION
      element, a single one wrapped in a list. */
  function FeedOf(doc: Document, now: DateTime): (r: Result<Option<seq<Disruption>>, ParseError>)
    requires Valid(now)
  {
    if doc.tag != "DISRUPTIONS" then Ok(None)
    else
      var root := doc.root;
      var present :- HasChild(root, "DISRUPTION");
      if !present then Ok(Some([]))
      else if !IsDict(root) then Err(WrongShape("DISRUPTION"))
      else
        var items :- Collect(ItemResults(Members(root.children["DISRUPTION"]), now));
        Ok(Some(items))
  }

  /** `parse`: the loop that appends one record per DISRUPTION element. */
  method ParseFeed(doc: Document, now: DateTime) returns (r: Result<Option<seq<Disruption>>, ParseError>)
    requires Valid(now)
    ensures r == FeedOf(doc, now)
  {
    if doc.tag != "DISRUPTIONS" {
      return Ok(None);
    }
    var root := doc.root;
    var present :- HasChild(root, "DISRUPTION");
    if !present {
      return Ok(Some([]));
    }
    if !IsDict(root) {
      return Err(WrongShape("DISRUPTION"));
    }
    var items :- ParseItems(Members(root.children["DISRUPTION"]), now);
    return Ok(Some(items));
  }

  /** The loop of `parse` over the DISRUPTION elements, appending one record per element. */
  method ParseItems(ns: seq<Node>, now: DateTime) returns (r: Result<seq<Disruption>, ParseError>)
    requires Valid(now)
    ensures r == Collect(ItemResults(ns, now))
  {
    ghost var rs := ItemResults(ns, now);
    var items: seq<Disruption> := [];
    var i := 0;
    while i < |ns|
      invariant 0 <= i <= |ns|
      invariant Collect(rs[..i]) == Ok(items)
    {
      var item := ParseItem(ns[i], now);
      assert rs[..i + 1][..i] == rs[..i];
      if item.Err? {
        CollectStops(rs, i);
        return Err(item.error);
      }
      items := items + [item.value];
      i := i + 1;
    }
    assert rs[..|rs|] == rs;
    return Ok(items);
  }

  /* ---------- what the parser promises ---------- */

  /** The element carries a language attribute. */
  predicate HasLang(n: Node) {
    IsDict(n) && "lang" in n.attrs
  }

  predicate IsFinnish(n: Node) {
    HasLang(n) && n.attrs["lang"] == "fi"
  }

  /** Every element of `items[i..k]` has a language, and it is not Finnish. */
  predicate OtherLanguages(items: seq<Node>, i: int, k: int)
    requires 0 <= i && k <= |items|
  {
    forall j | i <= j < k :: HasLang(items[j]) && !IsFinnish(items[j])
  }

  /** The loop over the TEXT list finds nothing exactly when every element has a language and
      none is Finnish; it finds the first Finnish element when the ones before it all have
      another language; it raises at the first element without a language. */
  lemma {:induction false} FirstFinnishMeaning(items: seq<Node>, i: nat)
    requires i <= |items|
    ensures FirstFinnish(items, i) == Ok(None) <==> OtherLanguages(items, i, |items|)
    ensures FirstFinnish(items, i).Ok? && FirstFinnish(items, i).value.Some? ==>
      exists k | i <= k < |items| ::
        items[k] == FirstFinnish(items, i).value.value && IsFinnish(items[k]) && OtherLanguages(items, i, k)
    ensures FirstFinnish(items, i).Err? ==>
      exists k | i <= k < |items| :: !HasLang(items[k]) && OtherLanguages(items, i, k)
    decreases |items| - i
  {
    if i < |items| {
      if HasLang(items[i]) && !IsFinnish(items[i]) {
        FirstFinnishMeaning(items, i + 1);
        assert FirstFinnish(items, i) == FirstFinnish(items, i + 1);
        if FirstFinnish(items, i).Ok? && FirstFinnish(items, i).value.Some? {
          var k :| i + 1 <= k < |items| && items[k] == FirstFinnish(items, i).value.value
            && IsFinnish(items[k]) && OtherLanguages(items, i + 1, k);
          assert OtherLanguages(items, i, k);
        } else if FirstFinnish(items, i).Err? {
          var k :| i + 1 <= k < |items| && !HasLang(items[k]) && OtherLanguages(items, i + 1, k);
          assert OtherLanguages(items, i, k);
        }
      } else {
        assert OtherLanguages(items, i, i);
      }
    }
  }

  /** `parse_info` picks, from a TEXT list, the first element whose language is "fi" (nothing if
      none is), and takes a lone TEXT element as it is. */
  lemma ChosenTextMeaning(info: Field)
    requires Child(info, "TEXT").Ok?
    ensures Child(info, "TEXT").value.Single? ==> ChosenText(info) == Ok(Some(Child(info, "TEXT").value.node))
    ensures Child(info, "TEXT").value.Many? ==>
      var items := Child(info, "TEXT").value.nodes;
      && (ChosenText(info) == Ok(None) <==> OtherLanguages(items, 0, |items|))
      && (ChosenText(info).Ok? && ChosenText(info).value.Some? ==>
          exists k | 0 <= k < |items| ::
            items[k] == ChosenText(info).value.value && IsFinnish(items[k]) && OtherLanguages(items, 0, k))
  {
    if Child(info, "TEXT").value.Many? {
      FirstFinnishMeaning(Child(info, "TEXT").value.nodes, 0);
    }
  }

  /** `parse_info` returns a record exactly when the chosen element is a dictionary with text and
      the length does not raise; the record holds that text, its reason and its length. */
  lemma InfoOfMeaning(info: Field, now: DateTime)
    requires Valid(now)
    ensures (InfoOf(info, now).Ok? && InfoOf(info, now).value.Some?) <==>
      && ChosenText(info).Ok? && ChosenText(info).value.Some?
      && var n := ChosenText(info).value.value;
      && IsDict(n) && n.text.Some? && EstimatedEnd(n.text.value, now).Ok?
    ensures InfoOf(info, now).Ok? && InfoOf(info, now).value.Some? ==>
      var it := InfoOf(info, now).value.value;
      && ChosenText(info).value.value.text == Some(it.text)
      && it.reason == ParseReason(it.text)
      && EstimatedEnd(it.text, now) == Ok(it.length)
  {
    if ChosenText(info).Ok? {
      InfoFromMeaning(ChosenText(info).value, now);
    }
  }

  /** The record is made exactly of a chosen dictionary with text whose length does not raise. */
  lemma InfoFromMeaning(chosen: Option<Node>, now: DateTime)
    requires Valid(now)
    ensures (InfoFrom(chosen, now).Ok? && InfoFrom(chosen, now).value.Some?) <==>
      chosen.Some? && IsDict(chosen.value) && chosen.value.text.Some? && EstimatedEnd(chosen.value.text.value, now).Ok?
    ensures InfoFrom(chosen, now).Ok? && InfoFrom(chosen, now).value.Some? ==>
      var it := InfoFrom(chosen, now).value.value;
      && chosen.value.text == Some(it.text)
      && it.reason == ParseReason(it.text)
      && EstimatedEnd(it.text, now) == Ok(it.length)
  {
  }

  /** A collected list: every element read, one value per element in order, or the error of
      the first element that raises. */
  lemma {:induction false} CollectPointwise<T>(rs: seq<Result<T, ParseError>>)
    ensures Collect(rs).Ok? <==> forall k | 0 <= k < |rs| :: rs[k].Ok?
    ensures Collect(rs).Ok? ==>
      |Collect(rs).value| == |rs| && forall k | 0 <= k < |rs| :: rs[k] == Ok(Collect(rs).value[k])
    ensures Collect(rs).Err? ==>
      exists k | 0 <= k < |rs| :: rs[k].Err? && Collect(rs) == Err(rs[k].error)
        && forall j | 0 <= j < k :: rs[j].Ok?
  {
    if rs != [] {
      var init := rs[..|rs| - 1];
      CollectPointwise(init);
      assert forall k | 0 <= k < |init| :: init[k] == rs[k];
    }
  }

  /** A LINE element reads whenever it is a dictionary with "@id", "@direction", "@linetype" and
      text, whatever its codes; a code the tables do not list becomes `None`. */
  lemma LineOfMeaning(n: Node)
    ensures LineOf(n).Ok? <==>
      IsDict(n) && "id" in n.attrs && "direction" in n.attrs && "linetype" in n.attrs && n.text.Some?
    ensures LineOf(n).Ok? ==>
      var l := LineOf(n).value;
      && l.id == n.attrs["id"] && l.number == n.text.value
      && (l.direction.None? <==> n.attrs["direction"] !in DirectionMap)
      && (l.direction.Some? ==> l.direction.value == DirectionMap[n.attrs["direction"]])
      && (l.lineType.None? <==> n.attrs["linetype"] !in LineTypeMap)
      && (l.lineType.Some? ==> l.lineType.value == LineTypeMap[n.attrs["linetype"]])
  {
  }

  /** `parse_targets` gives `None` exactly for an empty element, `[]` for a dictionary without
      LINE, and otherwise one entry per LINE element in document order, a lone one counting as a
      list of one. */
  lemma LinesOfMeaning(targets: Field)
    ensures LinesOf(targets) == Ok(None) <==> targets.Single? && IsNull(targets.node)
    ensures targets.Single? && IsDict(targets.node) && "LINE" !in targets.node.children ==>
      LinesOf(targets) == Ok(Some([]))
    ensures targets.Single? && IsDict(targets.node) && "LINE" in targets.node.children ==>
      var ns := Members(targets.node.children["LINE"]);
      && (LinesOf(targets).Ok? <==> forall k | 0 <= k < |ns| :: LineOf(ns[k]).Ok?)
      && (LinesOf(targets).Ok? ==>
          && |LinesOf(targets).value.value| == |ns|
          && forall k | 0 <= k < |ns| :: LineOf(ns[k]) == Ok(LinesOf(targets).value.value[k]))
  {
    if targets.Single? {
      ThreeShapes(targets.node);
      if IsDict(targets.node) && "LINE" in targets.node.children {
        CollectPointwise(LineResults(Members(targets.node.children["LINE"])));
      }
    }
  }

  /** The validity timestamps round-trip: what `isoformat()` writes for a datetime, without its
      offset, `parse_isoformat` reads back as the same wall-clock time. */
  lemma IsoStampRoundTrip(dt: DateTime)
    requires Valid(dt)
    ensures IsoStamp(Render(dt)) == Ok(Localize(dt))
  {
    IsoRoundTrip(dt);
  }

  /** `parse_isoformat` raises exactly when `strptime` rejects the text, and otherwise gives a
      datetime that exists. */
  lemma IsoStampMeaning(s: string)
    ensures IsoStamp(s).Err? <==> Parse(IsoFormat, s).None?
    ensures IsoStamp(s).Err? ==> IsoStamp(s).error == BadFormat(s)
    ensures IsoStamp(s).Ok? ==> exists dt :: Valid(dt) && IsoStamp(s) == Ok(Localize(dt))
  {
    if IsoStamp(s).Ok? {
      var dt := Parse(IsoFormat, s).value;
      assert Valid(dt) && IsoStamp(s) == Ok(Localize(dt));
    }
  }

  /** `valid` is the status flag being exactly "1"; the window is the two timestamps as read. */
  lemma ValidityMeaning(f: Field)
    ensures ValidityOf(f).Ok? <==>
      && f.Single? && IsDict(f.node) && "status" in f.node.attrs && "from" in f.node.attrs && "to" in f.node.attrs
      && IsoStamp(f.node.attrs["from"]).Ok? && IsoStamp(f.node.attrs["to"]).Ok?
    ensures ValidityOf(f).Ok? ==>
      && (ValidityOf(f).value.valid <==> f.node.attrs["status"] == "1")
      && IsoStamp(f.node.attrs["from"]) == Ok(ValidityOf(f).value.from)
      && IsoStamp(f.node.attrs["to"]) == Ok(ValidityOf(f).value.to)
  {
  }

  /** A record holds the item's id, the table values of its codes and the parts as parsed. */
  lemma ItemOfMeaning(item: Node, now: DateTime)
    requires Valid(now)
    ensures ItemOf(item, now).Ok? ==>
      var d := ItemOf(item, now).value;
      && IsDict(item) && d.id == item.attrs["id"]
      && item.attrs["type"] in TypeMap && d.kind == TypeMap[item.attrs["type"]]
      && item.attrs["source"] in SourceMap && d.source == SourceMap[item.attrs["source"]]
      && InfoOf(item.children["INFO"], now) == Ok(d.info)
      && LinesOf(item.children["TARGETS"]) == Ok(d.lines)
      && ValidityOf(item.children["VALIDITY"]) == Ok(d.validity)
  {
    if ItemOf(item, now).Ok? {
      ItemHeader(item, now);
      ItemParts(item, now);
    }
  }

  lemma ItemHeader(item: Node, now: DateTime)
    requires Valid(now) && ItemOf(item, now).Ok?
    ensures var d := ItemOf(item, now).value;
      && IsDict(item) && d.id == item.attrs["id"]
      && item.attrs["type"] in TypeMap && d.kind == TypeMap[item.attrs["type"]]
      && item.attrs["source"] in SourceMap && d.source == SourceMap[item.attrs["source"]]
  {
  }

  lemma ItemParts(item: Node, now: DateTime)
    requires Valid(now) && ItemOf(item, now).Ok?
    ensures IsDict(item) && "INFO" in item.children && "TARGETS" in item.children && "VALIDITY" in item.children
    ensures var d := ItemOf(item, now).value;
      && InfoOf(item.children["INFO"], now) == Ok(d.info)
      && LinesOf(item.children["TARGETS"]) == Ok(d.lines)
      && ValidityOf(item.children["VALIDITY"]) == Ok(d.validity)
  {
  }

  /** A type code missing from `TYPE_MAP` raises instead of defaulting. */
  lemma UnknownTypeRaises(item: Node, now: DateTime)
    requires Valid(now)
    requires IsDict(item) && "id" in item.attrs && "type" in item.attrs && item.attrs["type"] !in TypeMap
    ensures ItemOf(item, now) == Err(UnknownCode("TYPE_MAP", item.attrs["type"]))
  {
  }

  /** A source code missing from `SOURCE_MAP` raises instead of defaulting. */
  lemma UnknownSourceRaises(item: Node, now: DateTime)
    requires Valid(now)
    requires IsDict(item) && "id" in item.attrs && "type" in item.attrs && item.attrs["type"] in TypeMap
    requires "source" in item.attrs && item.attrs["source"] !in SourceMap
    ensures ItemOf(item, now) == Err(UnknownCode("SOURCE_MAP", item.attrs["source"]))
  {
  }

  /** `parse` gives `None` exactly when the root is not DISRUPTIONS, `[]` for a root without
      DISRUPTION, raises for an empty root, and otherwise one record per DISRUPTION element in
      document order, a lone one counting as a list of one. */
  lemma FeedOfMeaning(doc: Document, now: DateTime)
    requires Valid(now)
    ensures FeedOf(doc, now) == Ok(None) <==> doc.tag != "DISRUPTIONS"
    ensures doc.tag == "DISRUPTIONS" && IsNull(doc.root) ==> FeedOf(doc, now) == Err(WrongShape("DISRUPTION"))
    ensures doc.tag == "DISRUPTIONS" && IsDict(doc.root) && "DISRUPTION" !in doc.root.children ==>
      FeedOf(doc, now) == Ok(Some([]))
    ensures doc.tag == "DISRUPTIONS" && IsDict(doc.root) && "DISRUPTION" in doc.root.children ==>
      var ns := Members(doc.root.children["DISRUPTION"]);
      && (FeedOf(doc, now).Ok? <==> forall k | 0 <= k < |ns| :: ItemOf(ns[k], now).Ok?)
      && (FeedOf(doc, now).Ok? ==>
          && |FeedOf(doc, now).value.value| == |ns|
          && forall k | 0 <= k < |ns| :: ItemOf(ns[k], now) == Ok(FeedOf(doc, now).value.value[k]))
  {
    ThreeShapes(doc.root);
    if doc.tag == "DISRUPTIONS" && IsDict(doc.root) && "DISRUPTION" in doc.root.children {
      CollectPointwise(ItemResults(Members(doc.root.children["DISRUPTION"]), now));
    }
  }
}
