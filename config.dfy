/**
 The shape of the plugin's configuration document: a boolean toggle per pass
 plus the sub-configuration each pass reads.
 */
module Config {
  import opened Tables

  datatype CraftConfig = CraftConfig(hoursForSkillCrafting: real, expCraftAmount: real)

  datatype ScavCaseChanges = ScavCaseChanges(prodTime: bool, requirements: bool, rewards: bool)

  /** The construction-time multiplier, an exact rational. */
  datatype ConstructionConfig = ConstructionConfig(constructionTimeModifier: real)

  datatype ModConfig = ModConfig(
    verboseLogging: bool,
    changeCraftConfigValues: bool,
    craftConfig: CraftConfig,
    modifyScavCase: bool,
    scavCaseChanges: ScavCaseChanges,
    changeConsumptionConfigValues: bool,
    // the keys actually present in the document, each with its value
    consumptionConfig: map<string, Value>,
    constructionTimeChanges: bool,
    constructionConfig: ConstructionConfig,
    includeLocaleChanges: bool,
    requirementChanges: bool,
    bonusChanges: bool,
    generatorFuelChangeOnly: bool,
    productionChanges: bool,
    useDefaultStashSizeBonus: bool
  )
}
