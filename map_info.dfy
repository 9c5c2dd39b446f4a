/** `MapInfo` and `parse_map_info`: the status panel's OCR fragments turned
    into a map name, grid coordinates, a carried/maximum weight pair and a
    food label. Fields are found by full-width markers; malformed numbers are
    swallowed (the source's `except ValueError`), so parsing never fails. */
module MapInfoParser {
  import opened TextOps
  import opened Context

  const UnknownMap: string := "未知地图"
  const OpenParen: char := '（'
  const CloseParen: char := '）'
  const FullColon: char := '：'
  const WeightLabel: string := "负重："
  const FoodLabel: string := "食物："

  /** The fields of a `MapInfo` at one moment. */
  datatype MapInfoValue = MapInfoValue(
    mapName: string,
    x: Option<int>,
    y: Option<int>,
    currentWeight: Option<int>,
    maxWeight: Option<int>,
    food: Option<string>)

  /** `MapInfo(map_name="未知地图")`: the record before any fragment is read. */
  const Initial: MapInfoValue := MapInfoValue(UnknownMap, None, None, None, None, None)

  /** The dataclass; `parse_map_info` fills one in place. */
  class MapInfo {
    var mapName: string
    var x: Option<int>
    var y: Option<int>
    var currentWeight: Option<int>
    var maxWeight: Option<int>
    var food: Option<string>

    function Value(): MapInfoValue
      reads this
    {
      MapInfoValue(mapName, x, y, currentWeight, maxWeight, food)
    }

    /** `MapInfo(map_name=...)`, every optional field `None`. */
    constructor (mapName: string)
      ensures Value() == MapInfoValue(mapName, None, None, None, None, None)
    {
      this.mapName := mapName;
      x, y := None, None;
      currentWeight, maxWeight := None, None;
      food := None;
    }
  }

  /** Which branch of the `if`/`elif` chain a fragment's text takes: the
      bracket test first, then the weight label, then the food label. */
  datatype Kind = Location | Weight | Food | Other

  function KindOf(text: string): Kind {
    if OpenParen in text && CloseParen in text then Location
    else if Contains(text, WeightLabel) then Weight
    else if Contains(text, FoodLabel) then Food
    else Other
  }

  /** The `try` block over a two-number field such as `"12, 30"`: unpack
      `part.split(sep)` into two names, then assign `int(first.strip())`,
      then `int(second.strip())`. A `ValueError` (wrong number of fields, or a
      number that does not parse) ends the block where it is raised, so
      what was assigned before it stays. */
  function AssignPair(part: string, sep: char, first: Option<int>, second: Option<int>)
    : (Option<int>, Option<int>)
  {
    if sep !in part then (first, second)
    else
      var fields := Split(part, sep);
      if |fields| != 2 then (first, second)
      else
        match ParseInt(Strip(fields[0]))
        case None => (first, second)
        case Some(a) =>
          match ParseInt(Strip(fields[1]))
          case None => (Some(a), second)
          case Some(b) => (Some(a), Some(b))
  }

  /** The text between the first `（` and the next `（` or `）`. */
  function CoordPart(text: string): string
    requires OpenParen in text
  {
    Split(Split(text, OpenParen)[1], CloseParen)[0]
  }

  /** The text between the first and the second `：`. */
  function LabelPart(text: string): string
    requires FullColon in text
  {
    Split(text, FullColon)[1]
  }

  /** One pass of the loop body of `parse_map_info` over a fragment's text. */
  function ApplyFragment(info: MapInfoValue, text: string): MapInfoValue {
    match KindOf(text)
    case Location =>
      var (x, y) := AssignPair(CoordPart(text), ',', info.x, info.y);
      info.(mapName := Split(text, OpenParen)[0], x := x, y := y)
    case Weight =>
      ContainsElement(text, WeightLabel, 2);
      var (c, m) := AssignPair(LabelPart(text), '/', info.currentWeight, info.maxWeight);
      info.(currentWeight := c, maxWeight := m)
    case Food =>
      ContainsElement(text, FoodLabel, 2);
      info.(food := Some(LabelPart(text)))
    case Other => info
  }

  /** The record after `step` has been applied to `info` for each fragment
      of `results` in order: the `for` loop of `parse_map_info`. */
  function Fold(step: (MapInfoValue, string) -> MapInfoValue, info: MapInfoValue,
                results: seq<Fragment>): MapInfoValue
    decreases |results|
  {
    if results == [] then info
    else step(Fold(step, info, results[..|results| - 1]), results[|results| - 1].text)
  }

  /** What `parse_map_info(results)` returns. */
  function Parsed(results: seq<Fragment>): MapInfoValue {
    Fold(ApplyFragment, Initial, results)
  }

  /** `parse_map_info`: one record, updated fragment by fragment. */
  method ParseMapInfo(results: seq<Fragment>) returns (info: MapInfo)
    ensures fresh(info)
    ensures info.Value() == Parsed(results)
  {
    info := new MapInfo(UnknownMap);
    for i := 0 to |results|
      invariant info.Value() == Parsed(results[..i])
    {
      assert results[..i + 1][..i] == results[..i];
      ReadFragment(info, results[i].text);
    }
    assert results[..|results|] == results;
  }

  /** The body of the loop in `parse_map_info`, for the fragment text `text`. */
  method ReadFragment(info: MapInfo, text: string)
    modifies info
    ensures info.Value() == ApplyFragment(old(info.Value()), text)
  {
    if OpenParen in text && CloseParen in text {
      assert KindOf(text) == Location;
      ReadLocation(info, text);
    } else if Contains(text, WeightLabel) {
      assert KindOf(text) == Weight;
      ContainsElement(text, WeightLabel, 2);
      ReadWeight(info, text);
    } else if Contains(text, FoodLabel) {
      assert KindOf(text) == Food;
      ContainsElement(text, FoodLabel, 2);
      var foodPart := Split(text, FullColon)[1];
      info.food := Some(foodPart);
    } else {
      assert KindOf(text) == Other;
    }
  }

  /** The bracket branch: the map name, then the coordinate pair. */
  method ReadLocation(info: MapInfo, text: string)
    requires OpenParen in text
    modifies info
    ensures var (x, y) := AssignPair(CoordPart(text), ',', old(info.x), old(info.y));
            info.Value() == old(info.Value()).(mapName := Split(text, OpenParen)[0], x := x, y := y)
  {
    var mapNamePart := Split(text, OpenParen)[0];
    var coordPart := Split(Split(text, OpenParen)[1], CloseParen)[0];
    info.mapName := mapNamePart;
    if ',' in coordPart {
      var fields := Split(coordPart, ',');
      if |fields| == 2 {
        var x := ParseInt(Strip(fields[0]));
        if x.Some? {
          info.x := x;
          var y := ParseInt(Strip(fields[1]));
          if y.Some? {
            info.y := y;
          }
        }
      }
    }
  }

  /** The weight branch: the carried and the maximum weight. */
  method ReadWeight(info: MapInfo, text: string)
    requires FullColon in text
    modifies info
    ensures var (c, m) := AssignPair(LabelPart(text), '/', old(info.currentWeight), old(info.maxWeight));
            info.Value() == old(info.Value()).(currentWeight := c, maxWeight := m)
  {
    var weightPart := Split(text, FullColon)[1];
    if '/' in weightPart {
      var fields := Split(weightPart, '/');
      if |fields| == 2 {
        var current := ParseInt(Strip(fields[0]));
        if current.Some? {
          info.currentWeight := current;
          var maxW := ParseInt(Strip(fields[1]));
          if maxW.Some? {
            info.maxWeight := maxW;
          }
        }
      }
    }
  }
}
