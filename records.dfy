/** The code tables of the feed and the records the parser builds from it. */
module Records {
  import opened Wrappers
  import opened Calendar

  /** The values of `TYPE_MAP`: "advance_info" and "urgent_info". */
  datatype NotificationType = AdvanceInfo | UrgentInfo

  /** The values of `SOURCE_MAP`: "manual" and "automatic". */
  datatype NotificationSource = Manual | Automatic

  /** The values of `LINETYPE_MAP`. */
  datatype LineType =
    Helsinki | Tram | Espoo | Vantaa | RegionalTraffic | Metro | Ferry | Train | All | Kirkkonummi | Kerava

  /** The values of `DIRECTION_MAP`. */
  datatype Direction = FromCentrum | ToCentrum

  /** `TYPE_MAP` */
  const TypeMap: map<string, NotificationType> := map["1" := AdvanceInfo, "2" := UrgentInfo]

  /** `SOURCE_MAP` */
  const SourceMap: map<string, NotificationSource> := map["1" := Manual, "2" := Automatic]

  /** `LINETYPE_MAP` */
  const LineTypeMap: map<string, LineType> := map[
    "1" := Helsinki, "2" := Tram, "3" := Espoo, "4" := Vantaa, "5" := RegionalTraffic, "6" := Metro,
    "7" := Ferry, "12" := Train, "14" := All, "36" := Kirkkonummi, "39" := Kerava
  ]

  /** `DIRECTION_MAP` */
  const DirectionMap: map<string, Direction> := map["1" := FromCentrum, "2" := ToCentrum]

  /** The string `LINETYPE_MAP` stores for a line type, which filter rules name. */
  function LineTypeName(t: LineType): string {
    match t
    case Helsinki => "helsinki"
    case Tram => "tram"
    case Espoo => "espoo"
    case Vantaa => "vantaa"
    case RegionalTraffic => "regional_traffic"
    case Metro => "metro"
    case Ferry => "ferry"
    case Train => "train"
    case All => "all"
    case Kirkkonummi => "kirkkonummi"
    case Kerava => "kerava"
  }

  /** The string `DIRECTION_MAP` stores for a direction, which filter rules name. */
  function DirectionName(d: Direction): string {
    match d
    case FromCentrum => "from_centrum"
    case ToCentrum => "to_centrum"
  }

  /** `LINETYPE_MAP.get(code)`: `None` for a code the table does not list. */
  function LineTypeOf(code: string): (r: Option<LineType>)
    ensures r.None? <==> code !in LineTypeMap
    ensures r.Some? ==> r.value == LineTypeMap[code]
  {
    if code in LineTypeMap then Some(LineTypeMap[code]) else None
  }

  /** `DIRECTION_MAP.get(code)`: `None` for a code the table does not list. */
  function DirectionOf(code: string): (r: Option<Direction>)
    ensures r.None? <==> code !in DirectionMap
    ensures r.Some? ==> r.value == DirectionMap[code]
  {
    if code in DirectionMap then Some(DirectionMap[code]) else None
  }

  /** One affected line: `{"id", "direction", "type", "number"}`, with `None` for a code the
      tables do not know. */
  datatype TargetLine = TargetLine(id: string, direction: Option<Direction>, lineType: Option<LineType>, number: string)

  /** `parse_validity`'s result: the status flag and the two localised timestamps. Nothing orders
      `from` before `to`. */
  datatype Validity = Validity(valid: bool, from: Stamp, to: Stamp)

  /** `parse_info`'s result: the estimated end, the reason and the raw text. */
  datatype InfoText = InfoText(length: Option<Stamp>, reason: Option<string>, text: string)

  /** `parse_item`'s result, before the filter names it. */
  datatype Disruption = Disruption(
    id: string,
    kind: NotificationType,
    source: NotificationSource,
    info: Option<InfoText>,
    lines: Option<seq<TargetLine>>,
    validity: Validity)

  /** Every line type has a code, and different line types have different names, so comparing
      the stored names is comparing the line types. */
  lemma LineTypeTable(t: LineType)
    ensures exists code :: LineTypeOf(code) == Some(t)
    ensures forall u: LineType :: LineTypeName(u) == LineTypeName(t) ==> u == t
  {
    var code := match t
      case Helsinki => "1" case Tram => "2" case Espoo => "3" case Vantaa => "4"
      case RegionalTraffic => "5" case Metro => "6" case Ferry => "7" case Train => "12"
      case All => "14" case Kirkkonummi => "36" case Kerava => "39";
    assert LineTypeOf(code) == Some(t);
  }

  /** Different codes of `LINETYPE_MAP` name different line types. */
  lemma LineTypeCodesDistinct(c: string, d: string)
    requires c in LineTypeMap && d in LineTypeMap && c != d
    ensures LineTypeMap[c] != LineTypeMap[d]
  {
  }

  /** Both directions have a code, under different names. */
  lemma DirectionTable(t: Direction)
    ensures exists code :: DirectionOf(code) == Some(t)
    ensures forall u: Direction :: DirectionName(u) == DirectionName(t) ==> u == t
  {
    assert DirectionOf(if t == FromCentrum then "1" else "2") == Some(t);
  }
}
