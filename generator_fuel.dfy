/**
 The generator fuel pass: on every generator area, the item filter of each
 "AdditionalSlots" bonus of stage 1 is forced to kerosene only, and that of
 stage 2 to gasoline only. Nothing else is written.
 */
module GeneratorFuel {
  import opened Tables

  /** The type code of the generator area. */
  const GENERATOR_AREA_TYPE := 4
  /** The bonus type whose filter takes the fuel item. */
  const ADDITIONAL_SLOTS := "AdditionalSlots"
  /** Item template accepted by stage 1 (kerosene). */
  const STAGE_1_FUEL := "5d1b371186f774253763a656"
  /** Item template accepted by stage 2 (gasoline). */
  const STAGE_2_FUEL := "5d1b36a186f7742523398433"

  /** A bonus after the pass: an "AdditionalSlots" bonus accepts exactly the one item. */
  function Forced(b: Bonus, item: string): (r: Bonus)
    ensures r.bonusType == b.bonusType && r.value == b.value
    ensures b.bonusType != ADDITIONAL_SLOTS ==> r == b
  {
    if b.bonusType == ADDITIONAL_SLOTS then b.(filter := [item]) else b
  }

  /** A stage's bonuses after the pass, position by position. */
  function ForcedBonuses(bonuses: seq<Bonus>, item: string): (r: seq<Bonus>)
    ensures |r| == |bonuses|
  {
    seq(|bonuses|, k requires 0 <= k < |bonuses| => Forced(bonuses[k], item))
  }

  /** Every generator area has the stages "1" and "2" the pass reads. */
  predicate GeneratorStagesPresent(areas: seq<Area>)
  {
    forall j :: 0 <= j < |areas| && areas[j].areaType == GENERATOR_AREA_TYPE
                ==> "1" in areas[j].stages && "2" in areas[j].stages
  }

  /** One host area after the pass. */
  function FuelForcedArea(area: Area): (r: Area)
    requires area.areaType == GENERATOR_AREA_TYPE ==> "1" in area.stages && "2" in area.stages
    ensures SameAreaShape(r, area)
    ensures area.areaType != GENERATOR_AREA_TYPE ==> r == area
  {
    if area.areaType != GENERATOR_AREA_TYPE then area
    else
      var one := area.stages["1"];
      var two := area.stages["2"];
      area.(stages := area.stages["1" := one.(bonuses := ForcedBonuses(one.bonuses, STAGE_1_FUEL))]
                                  ["2" := two.(bonuses := ForcedBonuses(two.bonuses, STAGE_2_FUEL))])
  }

  /** All host areas after the pass. */
  function FuelForcedAreas(areas: seq<Area>): (r: seq<Area>)
    requires GeneratorStagesPresent(areas)
    ensures SameShape(r, areas)
  {
    seq(|areas|, j requires 0 <= j < |areas| => FuelForcedArea(areas[j]))
  }

  /** A generator area's stage 1 and stage 2 "AdditionalSlots" bonuses accept exactly one fuel each,
      their other bonuses, every other stage and every non-bonus field are unchanged, and
      non-generator areas are not touched. */
  lemma FuelForcedMeaning(areas: seq<Area>, j: int)
    requires GeneratorStagesPresent(areas) && 0 <= j < |areas|
    ensures areas[j].areaType != GENERATOR_AREA_TYPE ==> FuelForcedAreas(areas)[j] == areas[j]
    ensures areas[j].areaType == GENERATOR_AREA_TYPE ==>
      var before := areas[j].stages;
      var after := FuelForcedAreas(areas)[j].stages;
      && after.Keys == before.Keys
      && (forall k :: k in before && k != "1" && k != "2" ==> after[k] == before[k])
      && (forall k :: k in before ==> after[k].requirements == before[k].requirements
                                      && after[k].constructionTime == before[k].constructionTime
                                      && |after[k].bonuses| == |before[k].bonuses|)
      && (forall b :: 0 <= b < |before["1"].bonuses| ==>
            if before["1"].bonuses[b].bonusType == ADDITIONAL_SLOTS
            then after["1"].bonuses[b] == before["1"].bonuses[b].(filter := [STAGE_1_FUEL])
            else after["1"].bonuses[b] == before["1"].bonuses[b])
      && (forall b :: 0 <= b < |before["2"].bonuses| ==>
            if before["2"].bonuses[b].bonusType == ADDITIONAL_SLOTS
            then after["2"].bonuses[b] == before["2"].bonuses[b].(filter := [STAGE_2_FUEL])
            else after["2"].bonuses[b] == before["2"].bonuses[b])
  {
  }

  /** Forcing a filter twice is the same as forcing it once. */
  lemma ForcedBonusesIdempotent(bonuses: seq<Bonus>, item: string)
    ensures ForcedBonuses(ForcedBonuses(bonuses, item), item) == ForcedBonuses(bonuses, item)
  {
    var once := ForcedBonuses(bonuses, item);
    forall k | 0 <= k < |bonuses|
      ensures ForcedBonuses(once, item)[k] == once[k]
    {
    }
  }

  /** Running the pass a second time changes nothing. */
  lemma FuelForcedIdempotent(areas: seq<Area>)
    requires GeneratorStagesPresent(areas)
    ensures GeneratorStagesPresent(FuelForcedAreas(areas))
    ensures FuelForcedAreas(FuelForcedAreas(areas)) == FuelForcedAreas(areas)
  {
    var once := FuelForcedAreas(areas);
    assert GeneratorStagesPresent(once) by {
      forall j | 0 <= j < |once| && once[j].areaType == GENERATOR_AREA_TYPE
        ensures "1" in once[j].stages && "2" in once[j].stages
      {
        assert SameAreaShape(once[j], areas[j]);
      }
    }
    forall j | 0 <= j < |areas|
      ensures FuelForcedAreas(once)[j] == once[j]
    {
      if areas[j].areaType == GENERATOR_AREA_TYPE {
        var one := areas[j].stages["1"];
        var two := areas[j].stages["2"];
        ForcedBonusesIdempotent(one.bonuses, STAGE_1_FUEL);
        ForcedBonusesIdempotent(two.bonuses, STAGE_2_FUEL);
        assert once[j].stages["1"].bonuses == ForcedBonuses(one.bonuses, STAGE_1_FUEL);
        assert once[j].stages["2"].bonuses == ForcedBonuses(two.bonuses, STAGE_2_FUEL);
      }
    }
  }
}
