/**
 The locale pass: every key of the bundled locale overrides is written into
 the bucket of the host's current display language. Writing into a bucket
 that does not exist raises in the host; that happens at the first write, so
 an empty override set never raises.
 */
module Locales {

  /** The global locale table: one key/string bucket per language code. */
  type LocaleTable = map<string, map<string, string>>

  datatype Option<T> = None | Some(value: T)

  /** The table after the pass, or None when the pass raises before writing anything. */
  function Overlaid(global: LocaleTable, lang: string, overrides: map<string, string>): (r: Option<LocaleTable>)
    ensures r.None? <==> lang !in global && overrides != map[]
    ensures r.Some? ==> r.value.Keys == global.Keys
    ensures r.Some? ==> forall other :: other in global && other != lang ==> r.value[other] == global[other]
    ensures r.Some? && lang in global ==>
              r.value[lang].Keys == global[lang].Keys + overrides.Keys
              && (forall key :: key in overrides ==> r.value[lang][key] == overrides[key])
              && (forall key :: key in global[lang] && key !in overrides ==> r.value[lang][key] == global[lang][key])
  {
    if lang in global then Some(global[lang := global[lang] + overrides])
    else if overrides == map[] then Some(global)
    else None
  }

  /** Re-running the pass on its own result changes nothing. */
  lemma OverlaidIdempotent(global: LocaleTable, lang: string, overrides: map<string, string>)
    requires Overlaid(global, lang, overrides).Some?
    ensures Overlaid(Overlaid(global, lang, overrides).value, lang, overrides) == Overlaid(global, lang, overrides)
  {
    if lang in global {
      var once := global[lang := global[lang] + overrides];
      assert once[lang] + overrides == once[lang];
      assert once[lang := once[lang] + overrides] == once;
    }
  }

  /** Writing the remaining keys after one key gives the same bucket as writing them all at once. */
  lemma OverlayStep(bucket: map<string, string>, overrides: map<string, string>, pending: set<string>, key: string)
    requires key in pending && pending <= overrides.Keys
    ensures (bucket + (overrides - pending))[key := overrides[key]] == bucket + (overrides - (pending - {key}))
  {
  }
}
