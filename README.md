# Hideout Redux table patcher, modelled in Dafny

Hideout Redux is a plugin for a game-server framework. When the host has loaded its
database, the plugin overwrites fields of the hideout tables from a configuration
document and bundled fixtures. When the server has fully loaded, it overwrites the
hideout config object too. Every pass is guarded by its own toggle. The passes are:

1. settings merge: every key that is both in `consumptionConfig` and in `hideout.settings` takes the configured value;
2. requirements: each area whose `_id` matches a fixture entry gets the fixture's `requirements` on every stage except `"0"`;
3. bonuses: the same with `bonuses`; with `useDefaultStashSizeBonus` set, stash areas (type 3) are skipped;
4. construction time: the same with `constructionTime := Math.round(fixtureTime * constructionTimeModifier)`;
5. locales: every fixture key is written into the bucket of the current display language;
6. generator fuel: on every generator area (type 4), each `"AdditionalSlots"` bonus of stage 1 accepts only kerosene and each one of stage 2 only gasoline.

The server-loaded hook runs the settings merge again, this time against the hideout config object.

Layout, one module per file:

- `tables.dfy` (`Tables`): the host values. These are `Value`, `Requirement`, `Bonus`, `Stage` and `Area`, plus the shape predicates (id, type and stage keys) that no pass changes.
- `rounding.dfy` (`Rounding`): `Math.round` on exact rationals.
- `config.dfy` (`Config`): the configuration document, in the shape of `src/types.ts`.
- `settings.dfy` (`Settings`): the merge specification `Merged` and the class `ConfigObject`. That class is a settings-style host object whose method `MergeFrom` has the source's nested key loops.
- `stage_passes.dfy` (`StagePasses`): one specification for the three per-stage passes. `PatchedAreas` folds over the fixture entries in order. `FinalArea` is an independent reference definition ("the last touching entry wins"). The lemmas connect the two.
- `locales.dfy` (`Locales`): the locale overwrite `Overlaid`, including the case where the host raises.
- `generator_fuel.dfy` (`GeneratorFuel`): the fuel filter specification.
- `host.dfy` (`Host`): the class `Database`, which holds `settings`, `areas` and `locales`. Its methods perform the passes in place, with the source's loops.
- `mod.dfy` (`HideoutRedux`): the class `Mod`, with `PostDBLoad` and `PostSptLoad`.

Host services are parameters. The database tables arrive as a `Database`. The display language arrives as `sysLang`. The hideout config object arrives as a `ConfigObject`. The configuration and the fixtures are fields of `Mod`.

Three facts about the code shape the model:

- The fuel pass handles every area of type 4.
- The scav-case and production-append passes are commented out and never run.
- A missing locale bucket raises at the first locale write, which stops the hook. The generator pass after it then never runs, although earlier passes have already written. `PostDBLoad` returns `ok == false` in that case.

## Model

| member | source | states |
|---|---|---|
| Rounding.JsRound | src/mod.ts:138 | the rounded value r satisfies r - 1/2 <= x < r + 1/2, which is rounding to nearest with halves going up |
| Rounding.JsRoundUnique | src/mod.ts:138 | that bound picks exactly one integer, so the rounding is fully determined |
| Rounding.JsRoundOfInteger | src/mod.ts:138 | a whole number rounds to itself |
| Rounding.JsRoundScenarios | src/mod.ts:138 | 1000 * 1.5 gives 1500; 1001 * 1.5 = 1501.5 gives 1502 (half up); -2.5 gives -2 |
| Settings.MergedMeaning | src/mod.ts:39-49 | after the merge the host key set is unchanged; shared keys hold the configured value; host-only keys keep their value; configuration-only keys are not added |
| Settings.MergedIdempotent | src/mod.ts:39-49 | merging twice with the same configuration equals merging once |
| Settings.MergedScenario | src/mod.ts:39-49 | host {generatorFuelFlowRate: 1.0, other: 5} merged with {generatorFuelFlowRate: 0.5, unknownKey: true} gives {generatorFuelFlowRate: 0.5, other: 5} |
| Settings.Merged | src/mod.ts:39-49 | the host object after the merge (also used for src/mod.ts:247-257): each host key takes the configured value when the configuration has it and keeps its own otherwise; the key set is the host's |
| Settings.ConfigObject.MergeFrom | src/mod.ts:39-49 | the nested loop over configuration keys and host keys leaves exactly `Merged(old entries, overrides)` |
| StagePasses.ApplyStageWritesOwnField | src/mod.ts:64-138 | the requirements pass writes only `requirements`, the bonuses pass only `bonuses`, the time pass only `constructionTime`, and each takes the new value from the fixture stage |
| StagePasses.ApplyStageOverwrites | src/mod.ts:56-72 | writing a stage field twice leaves the second write, whatever the first one was |
| StagePasses.ScaledTimeFromFixture | src/mod.ts:136-138 | the new time is `JsRound(fixtureTime * modifier)`, independent of the host's previous time; a modifier of 1 gives the fixture time |
| StagePasses.ApplyStage | src/mod.ts:64-138 | the field write of one pass on one stage, the fixture's `requirements` (line 66), `bonuses` (93, 114) or rounded scaled `constructionTime` (138); the fields a pass does not own keep their values |
| StagePasses.PatchedStages | src/mod.ts:62-69 | the loop over a matched host area's stage keys: every stage but "0" gets the write from the fixture stage of the same key; the stage keys stay the same and stage "0" is kept |
| StagePasses.PatchedArea | src/mod.ts:58-70 | one host area visited for one fixture entry: it is rewritten when the id matches (and, under the exemption, it is not a stash area); otherwise it is unchanged; id, type and stage keys are kept |
| StagePasses.PatchedAreaList | src/mod.ts:58-71 | the `areas.forEach` for one fixture entry: every host area is visited in turn; the list keeps its length and every area keeps its shape |
| StagePasses.FinalArea | src/mod.ts:56-72 | reference definition of one area after a whole pass: the writes of the last fixture entry that matches it, or the area unchanged when no entry matches; its id, type and stage keys are kept |
| StagePasses.PatchedAreas | src/mod.ts:56-72 | a stage pass keeps the number of areas and each area's id, type and stage keys |
| StagePasses.LastTouch | src/mod.ts:56-60 | the index of the last fixture entry matching the area's id (and, under the stash exemption, not a stash area); -1 when no entry matches |
| StagePasses.PatchedAreasAt | src/mod.ts:56-72 | the in-order fold over the fixture gives, at every position, the reference `FinalArea`: an untouched area is unchanged, and a touched area gets the writes of the last matching entry |
| StagePasses.UnbuiltStageUntouched | src/mod.ts:62-66 | stage "0" of every area is never modified by the requirements, bonuses or time pass |
| StagePasses.UntouchedAreaUnchanged | src/mod.ts:58-60 | an area that no fixture entry matches is left exactly as it was |
| StagePasses.TouchedStagePatched | src/mod.ts:62-66 | on a matched area, every stage other than "0" exists in the matching fixture entry and becomes `ApplyStage(pass, old stage, fixture stage)` |
| StagePasses.StashAreaExempt | src/mod.ts:79-100 | with `useDefaultStashSizeBonus`, a stash area (type 3) keeps its bonuses and everything else |
| StagePasses.PatchedAreasIdempotent | src/mod.ts:56-72 | re-running a stage pass with the same fixture gives the same areas |
| Locales.Overlaid | src/mod.ts:190-198 | the pass raises exactly when the language bucket is missing and the override set is not empty; otherwise every override key is written into that bucket, the other keys of the bucket and all other buckets are unchanged, and new keys may be added |
| Locales.OverlaidIdempotent | src/mod.ts:192-196 | re-running the locale pass on its own result changes nothing |
| GeneratorFuel.FuelForcedMeaning | src/mod.ts:203-224 | on a type-4 area, each stage-1 "AdditionalSlots" bonus has filter ["5d1b371186f774253763a656"] and each stage-2 one has ["5d1b36a186f7742523398433"]; other bonuses, other stages, requirements, times and non-generator areas are unchanged |
| GeneratorFuel.FuelForcedIdempotent | src/mod.ts:203-224 | re-running the generator pass changes nothing |
| GeneratorFuel.Forced | src/mod.ts:209-213 | one bonus after the pass: an "AdditionalSlots" bonus gets the one-item filter; every other bonus is unchanged; type and value are never written |
| GeneratorFuel.ForcedBonuses | src/mod.ts:207-214 | a stage's bonus list after the pass: `Forced` at every position, with the same length |
| GeneratorFuel.FuelForcedArea | src/mod.ts:205-223 | one area after the pass: on a type-4 area, stage 1 bonuses get the kerosene filter and stage 2 bonuses the gasoline filter; any other area is unchanged; id, type and stage keys are kept |
| GeneratorFuel.FuelForcedAreas | src/mod.ts:203-224 | the `areas.forEach` of the pass: `FuelForcedArea` at every position, with every area keeping its shape |
| Host.PatchStageMap | src/mod.ts:62-69 | the loop over a host area's stage keys rewrites every stage except "0" from the fixture stage of the same key, giving `PatchedStages` |
| Host.ForceFilters | src/mod.ts:207-214 | the loop over a stage's bonuses sets the filter of each "AdditionalSlots" bonus to the one item and leaves every other bonus unchanged |
| Host.Database.PatchStages | src/mod.ts:54-147 | the nested loops over fixture entries and host areas leave `areas == PatchedAreas(old areas)`; locales are not touched |
| Host.Database.PatchLocales | src/mod.ts:190-198 | returns false exactly when the write raises, and then nothing was written; otherwise locales become `Overlaid(old locales)`; areas are not touched |
| Host.Database.ForceGeneratorFuel | src/mod.ts:201-225 | areas become `FuelForcedAreas(old areas)`; locales are not touched |
| HideoutRedux.StagePassesApplied | src/mod.ts:54-147 | the requirements, bonuses and time passes, each applied only when its toggle is on, keep every area's id, type and stage keys |
| HideoutRedux.StagePassesOff | src/mod.ts:54-147 | with all three stage toggles off, the areas are unchanged |
| HideoutRedux.Mod.RunStagePasses | src/mod.ts:54-147 | the requirements, bonuses and construction-time passes, run in order under their toggles, leave exactly `StagePassesApplied(old areas)` and do not touch locales |
| HideoutRedux.Mod.PostDBLoad | src/mod.ts:31-240 | settings, areas and locales each change only when their toggles are set, and then exactly as their passes specify; the generator pass runs only when the locale write did not raise, and the generator stages are required only when that pass is reached |
| HideoutRedux.Mod.PostSptLoad | src/mod.ts:241-261 | the hideout config object is merged with the configuration exactly when `changeConsumptionConfigValues` is set |

## Left out

- Logging (the `logWithColor` calls and the verbose/summary switch): output only, with no effect on state.
- Service resolution from the dependency-injection container and the host servers: these are host APIs. The tables, the display language and the hideout config object are parameters instead.
- Reading the configuration and fixture JSON files, and the `Deserialize` helper of `src/JsonUtils.ts`: file I/O through a JSON library. The configuration and fixtures are given as values.
- The scav-case pass and the production-append pass: both are commented out in the source and never run.
- IEEE-754 behaviour of `x * modifier` and of `Math.round`: the model uses exact rationals (`real`), rounding halves toward positive infinity.
- Aliasing: the source assigns the fixture's requirement and bonus arrays by reference, and the generator pass then mutates bonus objects in place. The model copies values. The two agree unless two host areas share an id and only one of them is a generator; then the source's in-place filter write would also show up in the other area.
- A fixture entry without a stage that a matched host area has (other than "0") makes the source raise. The model requires the fixture to cover those stages (`Covers`). The same holds for a generator area without stage "1" or "2" (`GeneratorStagesPresent`), when the generator pass is reached.
- Order of `for ... in` iteration: writes for different keys commute, so the model picks the keys in any order.
- Host setting values are modelled as numbers, booleans and strings. The merge copies values without looking at them, so other JSON value kinds behave the same.
- `src/types.ts` only declares types. It is used as the shape of `Config.ModConfig`.
