/**
 The plugin's two lifecycle hooks. After the database is loaded, the passes
 run in a fixed order, each only when its toggle is set: settings merge,
 requirements, bonuses, construction times, locales, generator fuel. After
 the server is fully loaded, the settings merge is applied again to the
 hideout config object. Host services are parameters: the database tables,
 the display language and the hideout config object.
 */
module HideoutRedux {
  import opened Tables
  import opened Config
  import opened Settings
  import opened StagePasses
  import opened Locales
  import opened GeneratorFuel
  import opened Host

  /** Preconditions of the enabled stage passes: the fixture has every stage they index it with. */
  predicate StagePassesDefined(config: ModConfig, construction: seq<AreaMod>, areas: seq<Area>)
  {
    && (config.requirementChanges ==> Covers(construction, areas, false))
    && (config.bonusChanges ==> Covers(construction, areas, config.useDefaultStashSizeBonus))
    && (config.constructionTimeChanges ==> Covers(construction, areas, false))
  }

  /** The host areas after the enabled requirements, bonuses and construction-time passes. */
  function StagePassesApplied(config: ModConfig, construction: seq<AreaMod>, areas: seq<Area>): (r: seq<Area>)
    requires StagePassesDefined(config, construction, areas)
    ensures SameShape(r, areas)
  {
    var afterRequirements :=
      if config.requirementChanges then PatchedAreas(ReplaceRequirements, areas, construction, false) else areas;
    assert config.bonusChanges ==> Covers(construction, afterRequirements, config.useDefaultStashSizeBonus) by {
      if config.bonusChanges {
        CoversSameShape(construction, areas, afterRequirements, config.useDefaultStashSizeBonus);
      }
    }
    var afterBonuses :=
      if config.bonusChanges
      then PatchedAreas(ReplaceBonuses, afterRequirements, construction, config.useDefaultStashSizeBonus)
      else afterRequirements;
    assert config.constructionTimeChanges ==> Covers(construction, afterBonuses, false) by {
      if config.constructionTimeChanges {
        CoversSameShape(construction, areas, afterBonuses, false);
      }
    }
    if config.constructionTimeChanges
    then PatchedAreas(ScaleConstructionTime(config.constructionConfig.constructionTimeModifier),
                      afterBonuses, construction, false)
    else afterBonuses
  }

  /** With every stage toggle off the stage passes change nothing. */
  lemma StagePassesOff(config: ModConfig, construction: seq<AreaMod>, areas: seq<Area>)
    requires !config.requirementChanges && !config.bonusChanges && !config.constructionTimeChanges
    ensures StagePassesApplied(config, construction, areas) == areas
  {
  }

  /** Generator stages survive the stage passes, so the generator pass can follow them. */
  lemma GeneratorStagesKept(areas: seq<Area>, now: seq<Area>)
    requires GeneratorStagesPresent(areas) && SameShape(now, areas)
    ensures GeneratorStagesPresent(now)
  {
    forall j | 0 <= j < |now| && now[j].areaType == GENERATOR_AREA_TYPE
      ensures "1" in now[j].stages && "2" in now[j].stages
    {
      assert SameAreaShape(now[j], areas[j]);
    }
  }

  class Mod {
    /** The configuration document. */
    const config: ModConfig
    /** The bundled construction fixture. */
    const construction: seq<AreaMod>
    /** The bundled locale overrides. */
    const localeOverrides: map<string, string>

    constructor (config: ModConfig, construction: seq<AreaMod>, localeOverrides: map<string, string>)
      ensures this.config == config && this.construction == construction
      ensures this.localeOverrides == localeOverrides
    {
      this.config := config;
      this.construction := construction;
      this.localeOverrides := localeOverrides;
    }

    /** The requirements, bonuses and construction-time passes, in that order, each under its toggle. */
    method RunStagePasses(db: Database)
      requires StagePassesDefined(config, construction, db.areas)
      modifies db
      ensures db.areas == StagePassesApplied(config, construction, old(db.areas))
      ensures db.locales == old(db.locales)
    {
      var areas0 := db.areas;
      if config.requirementChanges {
        db.PatchStages(ReplaceRequirements, construction, false);
      }
      if config.bonusChanges {
        CoversSameShape(construction, areas0, db.areas, config.useDefaultStashSizeBonus);
        db.PatchStages(ReplaceBonuses, construction, config.useDefaultStashSizeBonus);
      }
      if config.constructionTimeChanges {
        CoversSameShape(construction, areas0, db.areas, false);
        db.PatchStages(ScaleConstructionTime(config.constructionConfig.constructionTimeModifier), construction, false);
      }
    }

    /** The database-loaded hook. `ok` is false when the locale write raised; the generator
        pass then never runs, while the passes before it have already written. */
    method PostDBLoad(db: Database, sysLang: string) returns (ok: bool)
      requires StagePassesDefined(config, construction, db.areas)
      requires config.generatorFuelChangeOnly
               && (!config.includeLocaleChanges || Overlaid(db.locales, sysLang, localeOverrides).Some?)
               ==> GeneratorStagesPresent(db.areas)
      modifies db, db.settings
      ensures db.settings.entries ==
                if config.changeConsumptionConfigValues
                then Merged(old(db.settings.entries), config.consumptionConfig)
                else old(db.settings.entries)
      ensures ok == (!config.includeLocaleChanges || Overlaid(old(db.locales), sysLang, localeOverrides).Some?)
      ensures db.locales ==
                if config.includeLocaleChanges && ok
                then Overlaid(old(db.locales), sysLang, localeOverrides).value
                else old(db.locales)
      ensures db.areas ==
                var staged := StagePassesApplied(config, construction, old(db.areas));
                if ok && config.generatorFuelChangeOnly then FuelForcedAreas(staged) else staged
    {
      ghost var areas0 := db.areas;
      ghost var locales0 := db.locales;
      ghost var fuelStagesPresent := config.generatorFuelChangeOnly
        && (!config.includeLocaleChanges || Overlaid(locales0, sysLang, localeOverrides).Some?);
      assert fuelStagesPresent ==> GeneratorStagesPresent(areas0);
      if config.changeConsumptionConfigValues {
        db.settings.MergeFrom(config.consumptionConfig);
      }
      RunStagePasses(db);
      assert db.locales == locales0;
      ok := true;
      if config.includeLocaleChanges {
        ok := db.PatchLocales(sysLang, localeOverrides);
        if !ok {
          return;
        }
      }
      if config.generatorFuelChangeOnly {
        assert fuelStagesPresent;
        GeneratorStagesKept(areas0, db.areas);
        db.ForceGeneratorFuel();
      }
    }

    /** The server-loaded hook: the settings merge against the hideout config object. */
    method PostSptLoad(hideoutConfig: ConfigObject)
      modifies hideoutConfig
      ensures hideoutConfig.entries ==
                if config.changeConsumptionConfigValues
                then Merged(old(hideoutConfig.entries), config.consumptionConfig)
                else old(hideoutConfig.entries)
    {
      if config.changeConsumptionConfigValues {
        hideoutConfig.MergeFrom(config.consumptionConfig);
      }
    }
  }
}
