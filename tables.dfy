/**
 The slice of the host's database tables that the patcher touches: hideout
 areas with their stages, and the values held in settings-style objects.
 */
module Tables {

  /** A value held under a key of a settings-style object; copied as-is, never coerced. */
  datatype Value = Number(n: real) | Boolean(b: bool) | Text(s: string)

  /** One construction requirement of a stage (an item, another area's level, a skill, ...). */
  datatype Requirement = Requirement(requirementType: string, target: string, count: int)

  /** One bonus granted by a finished stage; `filter` lists the item templates it accepts. */
  datatype Bonus = Bonus(bonusType: string, value: int, filter: seq<string>)

  /** One upgrade level of an area. */
  datatype Stage = Stage(requirements: seq<Requirement>, bonuses: seq<Bonus>, constructionTime: int)

  /** A hideout area: its identifier, its numeric type code and its stages keyed "0", "1", ... */
  datatype Area = Area(id: string, areaType: int, stages: map<string, Stage>)

  /** The key of the unbuilt stage, which no pass ever writes. */
  const UNBUILT_STAGE := "0"

  /** Two areas agree on everything the patcher never writes: id, type and stage keys. */
  predicate SameAreaShape(x: Area, y: Area)
  {
    x.id == y.id && x.areaType == y.areaType && x.stages.Keys == y.stages.Keys
  }

  /** Two area lists agree position by position on their shape. */
  predicate SameShape(xs: seq<Area>, ys: seq<Area>)
  {
    |xs| == |ys| && forall j :: 0 <= j < |xs| ==> SameAreaShape(xs[j], ys[j])
  }
}
