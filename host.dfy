/**
 The host's database tables as the patcher sees them, and the passes that
 overwrite them in place: per-stage replacement, locale overwrite and
 generator fuel forcing. The settings table is a `ConfigObject` of its own.
 */
module Host {
  import opened Tables
  import opened Settings
  import opened StagePasses
  import opened Locales
  import opened GeneratorFuel

  /** The `for ... in area.stages` loop of a stage pass: every stage but "0" is rewritten. */
  method PatchStageMap(p: StagePatch, host: map<string, Stage>, fix: map<string, Stage>) returns (r: map<string, Stage>)
    requires StagesCovered(host, fix)
    ensures r == PatchedStages(p, host, fix)
  {
    r := host;
    var pending := host.Keys;
    while pending != {}
      invariant pending <= host.Keys && r.Keys == host.Keys
      invariant forall k :: k in host && k !in pending ==>
                  r[k] == if k == UNBUILT_STAGE then host[k] else ApplyStage(p, host[k], fix[k])
      invariant forall k :: k in pending ==> r[k] == host[k]
      decreases pending
    {
      var stage :| stage in pending;
      if stage != UNBUILT_STAGE {
        r := r[stage := ApplyStage(p, r[stage], fix[stage])];
      }
      pending := pending - {stage};
    }
  }

  /** The `bonuses.forEach` loop of the generator pass: each "AdditionalSlots" filter becomes `[item]`. */
  method ForceFilters(bonuses: seq<Bonus>, item: string) returns (r: seq<Bonus>)
    ensures |r| == |bonuses|
    ensures forall k :: 0 <= k < |bonuses| ==>
              r[k] == if bonuses[k].bonusType == ADDITIONAL_SLOTS then bonuses[k].(filter := [item]) else bonuses[k]
  {
    r := bonuses;
    var k := 0;
    while k < |r|
      invariant 0 <= k <= |r| == |bonuses|
      invariant forall b :: 0 <= b < k ==> r[b] == Forced(bonuses[b], item)
      invariant forall b :: k <= b < |r| ==> r[b] == bonuses[b]
    {
      if r[k].bonusType == ADDITIONAL_SLOTS {
        r := r[k := r[k].(filter := [item])];
      }
      k := k + 1;
    }
  }

  class Database {
    /** hideout.settings */
    const settings: ConfigObject
    /** hideout.areas */
    var areas: seq<Area>
    /** locales.global */
    var locales: LocaleTable

    constructor (settings: ConfigObject, areas: seq<Area>, locales: LocaleTable)
      ensures this.settings == settings && this.areas == areas && this.locales == locales
    {
      this.settings := settings;
      this.areas := areas;
      this.locales := locales;
    }

    /** One stage pass: for each fixture entry, for each host area it touches, rewrite its stages. */
    method PatchStages(p: StagePatch, construction: seq<AreaMod>, exemptStash: bool)
      requires Covers(construction, areas, exemptStash)
      modifies this
      ensures areas == PatchedAreas(p, old(areas), construction, exemptStash)
      ensures locales == old(locales)
    {
      var i := 0;
      while i < |construction|
        invariant 0 <= i <= |construction|
        invariant Covers(construction[..i], old(areas), exemptStash)
        invariant areas == PatchedAreas(p, old(areas), construction[..i], exemptStash)
        invariant locales == old(locales)
      {
        var mod := construction[i];
        ghost var before := areas;
        EntryCoversSameShape(construction, i, old(areas), before, exemptStash);
        var j := 0;
        while j < |areas|
          invariant 0 <= j <= |areas| == |before|
          invariant forall k :: 0 <= k < j ==> areas[k] == PatchedArea(p, before[k], mod, exemptStash)
          invariant forall k :: j <= k < |areas| ==> areas[k] == before[k]
          invariant locales == old(locales)
        {
          var area := areas[j];
          if !(exemptStash && area.areaType == STASH_AREA_TYPE) && area.id == mod.id {
            var stages := PatchStageMap(p, area.stages, mod.stages);
            areas := areas[j := area.(stages := stages)];
          }
          j := j + 1;
        }
        assert areas == PatchedAreaList(p, before, mod, exemptStash);
        assert construction[..i + 1][..i] == construction[..i];
        i := i + 1;
      }
      assert construction[..|construction|] == construction;
    }

    /** The locale pass; `ok` is false when the write into a missing bucket raises. */
    method PatchLocales(lang: string, overrides: map<string, string>) returns (ok: bool)
      modifies this
      ensures ok == Overlaid(old(locales), lang, overrides).Some?
      ensures locales == if ok then Overlaid(old(locales), lang, overrides).value else old(locales)
      ensures areas == old(areas)
    {
      var pending := overrides.Keys;
      while pending != {}
        invariant pending <= overrides.Keys
        invariant pending != overrides.Keys ==> lang in old(locales)
        invariant locales == if pending == overrides.Keys then old(locales)
                             else old(locales)[lang := old(locales)[lang] + (overrides - pending)]
        invariant areas == old(areas)
        decreases pending
      {
        var key :| key in pending;
        if lang !in locales {
          return false;
        }
        OverlayStep(old(locales)[lang], overrides, pending, key);
        assert pending == overrides.Keys ==> old(locales)[lang] + (overrides - pending) == old(locales)[lang];
        locales := locales[lang := locales[lang][key := overrides[key]]];
        pending := pending - {key};
      }
      assert overrides - {} == overrides;
      if lang in old(locales) && overrides == map[] {
        assert old(locales)[lang] + overrides == old(locales)[lang];
        assert old(locales)[lang := old(locales)[lang] + overrides] == old(locales);
      }
      ok := true;
    }

    /** The generator pass: stage 1 and stage 2 fuel filters of every generator area. */
    method ForceGeneratorFuel()
      requires GeneratorStagesPresent(areas)
      modifies this
      ensures areas == FuelForcedAreas(old(areas))
      ensures locales == old(locales)
    {
      var j := 0;
      while j < |areas|
        invariant 0 <= j <= |areas| == |old(areas)|
        invariant forall k :: 0 <= k < j ==> areas[k] == FuelForcedArea(old(areas)[k])
        invariant forall k :: j <= k < |areas| ==> areas[k] == old(areas)[k]
        invariant locales == old(locales)
      {
        var area := areas[j];
        if area.areaType == GENERATOR_AREA_TYPE {
          var one := area.stages["1"];
          var oneBonuses := ForceFilters(one.bonuses, STAGE_1_FUEL);
          assert oneBonuses == ForcedBonuses(one.bonuses, STAGE_1_FUEL);
          area := area.(stages := area.stages["1" := one.(bonuses := oneBonuses)]);
          var two := area.stages["2"];
          var twoBonuses := ForceFilters(two.bonuses, STAGE_2_FUEL);
          assert twoBonuses == ForcedBonuses(two.bonuses, STAGE_2_FUEL);
          area := area.(stages := area.stages["2" := two.(bonuses := twoBonuses)]);
          assert area == FuelForcedArea(areas[j]);
          areas := areas[j := area];
        }
        j := j + 1;
      }
    }
  }
}
