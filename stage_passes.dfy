/**
 The three per-stage passes (requirements, bonuses, construction time). Each
 walks the fixture entries in order; for each one it visits every host area
 with the same identifier and, for every stage of that host area except the
 unbuilt stage "0", replaces one field of the stage from the fixture's stage
 of the same key. The bonus pass may exempt stash-capacity areas (type 3).
 */
module StagePasses {
  import opened Tables
  import opened Rounding

  /** The type code of the stash-capacity area. */
  const STASH_AREA_TYPE := 3

  /** One entry of the bundled construction fixture. `name` is only used in log lines. */
  datatype AreaMod = AreaMod(id: string, name: string, stages: map<string, Stage>)

  /** Which stage field a pass writes. */
  datatype StagePatch =
    | ReplaceRequirements
    | ReplaceBonuses
    | ScaleConstructionTime(modifier: real)

  /** The host stage after one pass wrote it from the fixture stage. */
  function ApplyStage(p: StagePatch, host: Stage, fix: Stage): (r: Stage)
    ensures !p.ReplaceRequirements? ==> r.requirements == host.requirements
    ensures !p.ReplaceBonuses? ==> r.bonuses == host.bonuses
    ensures !p.ScaleConstructionTime? ==> r.constructionTime == host.constructionTime
  {
    match p
    case ReplaceRequirements => host.(requirements := fix.requirements)
    case ReplaceBonuses => host.(bonuses := fix.bonuses)
    case ScaleConstructionTime(m) => host.(constructionTime := JsRound(fix.constructionTime as real * m))
  }

  /** Each pass writes its own field only, and what it writes comes from the fixture alone. */
  lemma ApplyStageWritesOwnField(p: StagePatch, host: Stage, fix: Stage)
    ensures p.ReplaceRequirements? ==>
              ApplyStage(p, host, fix) == Stage(fix.requirements, host.bonuses, host.constructionTime)
    ensures p.ReplaceBonuses? ==>
              ApplyStage(p, host, fix) == Stage(host.requirements, fix.bonuses, host.constructionTime)
    ensures p.ScaleConstructionTime? ==>
              ApplyStage(p, host, fix).requirements == host.requirements
              && ApplyStage(p, host, fix).bonuses == host.bonuses
              && ApplyStage(p, host, fix).constructionTime as real - 0.5
                 <= fix.constructionTime as real * p.modifier
                 < ApplyStage(p, host, fix).constructionTime as real + 0.5
  {
  }

  /** A later write of the same field overrides an earlier one; in particular a pass is idempotent. */
  lemma ApplyStageOverwrites(p: StagePatch, host: Stage, first: Stage, second: Stage)
    ensures ApplyStage(p, ApplyStage(p, host, first), second) == ApplyStage(p, host, second)
  {
  }

  /** The rounded scaled time ignores the host's previous time, and a modifier of 1 keeps the fixture's. */
  lemma ScaledTimeFromFixture(host: Stage, fix: Stage, m: real)
    ensures ApplyStage(ScaleConstructionTime(m), host, fix).constructionTime
            == JsRound(fix.constructionTime as real * m)
    ensures ApplyStage(ScaleConstructionTime(1.0), host, fix).constructionTime == fix.constructionTime
  {
    JsRoundOfInteger(fix.constructionTime);
  }

  /** Whether a pass visits this host area for this fixture entry. */
  predicate Touches(mod: AreaMod, area: Area, exemptStash: bool)
  {
    area.id == mod.id && !(exemptStash && area.areaType == STASH_AREA_TYPE)
  }

  /** The fixture has every host stage the pass indexes it with (every stage but "0"). */
  predicate StagesCovered(host: map<string, Stage>, fix: map<string, Stage>)
  {
    forall k :: k in host && k != UNBUILT_STAGE ==> k in fix
  }

  /** Every fixture entry covers the stages of every host area it touches. */
  predicate Covers(construction: seq<AreaMod>, areas: seq<Area>, exemptStash: bool)
  {
    forall i, j :: 0 <= i < |construction| && 0 <= j < |areas| && Touches(construction[i], areas[j], exemptStash)
                   ==> StagesCovered(areas[j].stages, construction[i].stages)
  }

  /** A stage map after one fixture entry was applied to it. */
  function PatchedStages(p: StagePatch, host: map<string, Stage>, fix: map<string, Stage>): (r: map<string, Stage>)
    requires StagesCovered(host, fix)
    ensures r.Keys == host.Keys
    ensures UNBUILT_STAGE in host ==> r[UNBUILT_STAGE] == host[UNBUILT_STAGE]
  {
    map k | k in host :: if k == UNBUILT_STAGE then host[k] else ApplyStage(p, host[k], fix[k])
  }

  /** A host area after one fixture entry was applied to it. */
  function PatchedArea(p: StagePatch, area: Area, mod: AreaMod, exemptStash: bool): (r: Area)
    requires Touches(mod, area, exemptStash) ==> StagesCovered(area.stages, mod.stages)
    ensures SameAreaShape(r, area)
    ensures !Touches(mod, area, exemptStash) ==> r == area
  {
    if Touches(mod, area, exemptStash) then area.(stages := PatchedStages(p, area.stages, mod.stages)) else area
  }

  /** The fixture entry covers every host area in the list that it touches. */
  predicate EntryCovers(mod: AreaMod, areas: seq<Area>, exemptStash: bool)
  {
    forall j :: 0 <= j < |areas| && Touches(mod, areas[j], exemptStash) ==> StagesCovered(areas[j].stages, mod.stages)
  }

  /** All host areas after one fixture entry was applied. */
  function PatchedAreaList(p: StagePatch, areas: seq<Area>, mod: AreaMod, exemptStash: bool): (r: seq<Area>)
    requires EntryCovers(mod, areas, exemptStash)
    ensures SameShape(r, areas)
  {
    seq(|areas|, j requires 0 <= j < |areas| => PatchedArea(p, areas[j], mod, exemptStash))
  }

  /** Coverage of a fixture entry depends only on the shape of the host areas. */
  lemma EntryCoversSameShape(construction: seq<AreaMod>, i: int, areas: seq<Area>, now: seq<Area>, exemptStash: bool)
    requires Covers(construction, areas, exemptStash) && SameShape(now, areas) && 0 <= i < |construction|
    ensures EntryCovers(construction[i], now, exemptStash)
  {
    forall j | 0 <= j < |now| && Touches(construction[i], now[j], exemptStash)
      ensures StagesCovered(now[j].stages, construction[i].stages)
    {
      assert SameAreaShape(now[j], areas[j]);
    }
  }

  /** Coverage of the whole fixture depends only on the shape of the host areas. */
  lemma CoversSameShape(construction: seq<AreaMod>, areas: seq<Area>, now: seq<Area>, exemptStash: bool)
    requires Covers(construction, areas, exemptStash) && SameShape(now, areas)
    ensures Covers(construction, now, exemptStash)
  {
    forall i | 0 <= i < |construction|
      ensures EntryCovers(construction[i], now, exemptStash)
    {
      EntryCoversSameShape(construction, i, areas, now, exemptStash);
    }
  }

  /** The host areas after a whole pass: the fixture entries applied in order. */
  function PatchedAreas(p: StagePatch, areas: seq<Area>, construction: seq<AreaMod>, exemptStash: bool): (r: seq<Area>)
    requires Covers(construction, areas, exemptStash)
    ensures SameShape(r, areas)
    decreases |construction|
  {
    if construction == [] then areas
    else
      var n := |construction| - 1;
      var prev := PatchedAreas(p, areas, construction[..n], exemptStash);
      EntryCoversSameShape(construction, n, areas, prev, exemptStash);
      PatchedAreaList(p, prev, construction[n], exemptStash)
  }

  /** The index of the last fixture entry that touches the area, or -1 when none does. */
  function LastTouch(construction: seq<AreaMod>, area: Area, exemptStash: bool): (r: int)
    ensures -1 <= r < |construction|
    ensures 0 <= r ==> Touches(construction[r], area, exemptStash)
    ensures forall i :: r < i < |construction| ==> !Touches(construction[i], area, exemptStash)
    decreases |construction|
  {
    if construction == [] then -1
    else if Touches(construction[|construction| - 1], area, exemptStash) then |construction| - 1
    else LastTouch(construction[..|construction| - 1], area, exemptStash)
  }

  /** Reference definition of one host area after a pass: untouched areas are as they were,
      touched ones carry the writes of the last fixture entry that touches them. */
  function FinalArea(p: StagePatch, area: Area, construction: seq<AreaMod>, exemptStash: bool): (r: Area)
    requires forall i :: 0 <= i < |construction| && Touches(construction[i], area, exemptStash)
                         ==> StagesCovered(area.stages, construction[i].stages)
    ensures SameAreaShape(r, area)
    ensures (forall i :: 0 <= i < |construction| ==> !Touches(construction[i], area, exemptStash)) ==> r == area
  {
    var last := LastTouch(construction, area, exemptStash);
    if last < 0 then area else PatchedArea(p, area, construction[last], exemptStash)
  }

  /** Applying two fixture entries that both touch an area leaves the writes of the second. */
  lemma PatchedAreaOverwrites(p: StagePatch, area: Area, first: AreaMod, second: AreaMod, exemptStash: bool)
    requires Touches(first, area, exemptStash) && StagesCovered(area.stages, first.stages)
    requires Touches(second, area, exemptStash) && StagesCovered(area.stages, second.stages)
    ensures PatchedArea(p, PatchedArea(p, area, first, exemptStash), second, exemptStash)
            == PatchedArea(p, area, second, exemptStash)
  {
    var once := PatchedArea(p, area, first, exemptStash);
    forall k | k in area.stages
      ensures PatchedStages(p, once.stages, second.stages)[k] == PatchedStages(p, area.stages, second.stages)[k]
    {
      if k != UNBUILT_STAGE {
        ApplyStageOverwrites(p, area.stages[k], first.stages[k], second.stages[k]);
      }
    }
  }

  /** The pass, position by position, agrees with the reference definition. */
  lemma {:induction false} PatchedAreasAt(p: StagePatch, areas: seq<Area>, construction: seq<AreaMod>,
                                          exemptStash: bool, j: int)
    requires Covers(construction, areas, exemptStash) && 0 <= j < |areas|
    ensures PatchedAreas(p, areas, construction, exemptStash)[j] == FinalArea(p, areas[j], construction, exemptStash)
    decreases |construction|
  {
    if construction != [] {
      var n := |construction| - 1;
      var front := construction[..n];
      var prev := PatchedAreas(p, areas, front, exemptStash);
      PatchedAreasAt(p, areas, front, exemptStash, j);
      assert SameAreaShape(prev[j], areas[j]);
      var mod := construction[n];
      if Touches(mod, areas[j], exemptStash) {
        assert LastTouch(construction, areas[j], exemptStash) == n;
        var last := LastTouch(front, areas[j], exemptStash);
        if 0 <= last {
          assert front[last] == construction[last];
          PatchedAreaOverwrites(p, areas[j], front[last], mod, exemptStash);
        }
      } else {
        assert LastTouch(construction, areas[j], exemptStash) == LastTouch(front, areas[j], exemptStash);
        var last := LastTouch(front, areas[j], exemptStash);
        if 0 <= last {
          assert front[last] == construction[last];
        }
      }
    }
  }

  /** Stage "0" is never written, and neither are ids, types or stage keys. */
  lemma {:induction false} UnbuiltStageUntouched(p: StagePatch, areas: seq<Area>, construction: seq<AreaMod>, exemptStash: bool, j: int)
    requires Covers(construction, areas, exemptStash) && 0 <= j < |areas|
    requires UNBUILT_STAGE in areas[j].stages
    ensures UNBUILT_STAGE in PatchedAreas(p, areas, construction, exemptStash)[j].stages
    ensures PatchedAreas(p, areas, construction, exemptStash)[j].stages[UNBUILT_STAGE] == areas[j].stages[UNBUILT_STAGE]
  {
    PatchedAreasAt(p, areas, construction, exemptStash, j);
  }

  /** An area no fixture entry touches (no matching id, or an exempted stash) is unchanged. */
  lemma {:induction false} UntouchedAreaUnchanged(p: StagePatch, areas: seq<Area>, construction: seq<AreaMod>, exemptStash: bool, j: int)
    requires Covers(construction, areas, exemptStash) && 0 <= j < |areas|
    requires forall i :: 0 <= i < |construction| ==> !Touches(construction[i], areas[j], exemptStash)
    ensures PatchedAreas(p, areas, construction, exemptStash)[j] == areas[j]
  {
    PatchedAreasAt(p, areas, construction, exemptStash, j);
  }

  /** A touched area gets, on every stage but "0", the write taken from the last fixture entry
      touching it; every other field of the stage keeps its value. */
  lemma {:induction false} TouchedStagePatched(p: StagePatch, areas: seq<Area>, construction: seq<AreaMod>, exemptStash: bool,
                            j: int, i: int, k: string)
    requires Covers(construction, areas, exemptStash) && 0 <= j < |areas|
    requires 0 <= i < |construction| && Touches(construction[i], areas[j], exemptStash)
    requires forall i' :: i < i' < |construction| ==> !Touches(construction[i'], areas[j], exemptStash)
    requires k in areas[j].stages && k != UNBUILT_STAGE
    ensures k in construction[i].stages
    ensures PatchedAreas(p, areas, construction, exemptStash)[j].stages[k]
            == ApplyStage(p, areas[j].stages[k], construction[i].stages[k])
  {
    PatchedAreasAt(p, areas, construction, exemptStash, j);
  }

  /** With the stash exemption on, a stash-capacity area keeps everything, its bonuses included. */
  lemma {:induction false} StashAreaExempt(p: StagePatch, areas: seq<Area>, construction: seq<AreaMod>, j: int)
    requires Covers(construction, areas, true) && 0 <= j < |areas|
    requires areas[j].areaType == STASH_AREA_TYPE
    ensures PatchedAreas(p, areas, construction, true)[j] == areas[j]
  {
    UntouchedAreaUnchanged(p, areas, construction, true, j);
  }

  /** Running a pass a second time with the same fixture changes nothing. */
  lemma PatchedAreasIdempotent(p: StagePatch, areas: seq<Area>, construction: seq<AreaMod>, exemptStash: bool)
    requires Covers(construction, areas, exemptStash)
    ensures Covers(construction, PatchedAreas(p, areas, construction, exemptStash), exemptStash)
    ensures PatchedAreas(p, PatchedAreas(p, areas, construction, exemptStash), construction, exemptStash)
            == PatchedAreas(p, areas, construction, exemptStash)
  {
    var once := PatchedAreas(p, areas, construction, exemptStash);
    CoversSameShape(construction, areas, once, exemptStash);
    var twice := PatchedAreas(p, once, construction, exemptStash);
    forall j | 0 <= j < |areas|
      ensures twice[j] == once[j]
    {
      PatchedAreasAt(p, areas, construction, exemptStash, j);
      PatchedAreasAt(p, once, construction, exemptStash, j);
      assert SameAreaShape(once[j], areas[j]);
      var last := LastTouch(construction, areas[j], exemptStash);
      assert LastTouch(construction, once[j], exemptStash) == last by {
        LastTouchSameShape(construction, areas[j], once[j], exemptStash);
      }
      if 0 <= last {
        PatchedAreaOverwrites(p, areas[j], construction[last], construction[last], exemptStash);
      }
    }
  }

  /** Which entry touches last depends only on the area's id and type. */
  lemma {:induction false} LastTouchSameShape(construction: seq<AreaMod>, x: Area, y: Area, exemptStash: bool)
    requires x.id == y.id && x.areaType == y.areaType
    ensures LastTouch(construction, x, exemptStash) == LastTouch(construction, y, exemptStash)
    decreases |construction|
  {
    if construction != [] {
      LastTouchSameShape(construction[..|construction| - 1], x, y, exemptStash);
    }
  }
}
