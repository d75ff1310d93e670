/**
 The settings merge: every key present both in the configuration's overrides
 and in a host settings-style object takes the override's value. The same
 merge is applied to the hideout settings table and to the hideout config.
 */
module Settings {
  import opened Tables

  /** The host object after the merge: same keys, override values where both sides have the key. */
  function Merged(host: map<string, Value>, overrides: map<string, Value>): (r: map<string, Value>)
    ensures r.Keys == host.Keys
  {
    map k | k in host :: if k in overrides then overrides[k] else host[k]
  }

  /** What the merge promises, key by key: no key is added or removed, shared keys take the
      override, host-only keys keep their old value. */
  lemma MergedMeaning(host: map<string, Value>, overrides: map<string, Value>)
    ensures Merged(host, overrides).Keys == host.Keys
    ensures forall k :: k in host && k in overrides ==> Merged(host, overrides)[k] == overrides[k]
    ensures forall k :: k in host && k !in overrides ==> Merged(host, overrides)[k] == host[k]
    ensures forall k :: k in overrides && k !in host ==> k !in Merged(host, overrides)
  {
  }

  /** Re-running the merge with the same overrides changes nothing. */
  lemma MergedIdempotent(host: map<string, Value>, overrides: map<string, Value>)
    ensures Merged(Merged(host, overrides), overrides) == Merged(host, overrides)
  {
  }

  /** Merging one more key on top of a merge is the merge of the extended overrides. */
  lemma MergedStep(host: map<string, Value>, done: map<string, Value>, key: string, v: Value)
    ensures Merged(Merged(host, done), map[key := v]) == Merged(host, done[key := v])
  {
  }

  /** Overriding the fuel flow rate keeps the other host setting and adds no key. */
  lemma MergedScenario()
    ensures Merged(map["generatorFuelFlowRate" := Number(1.0), "other" := Number(5.0)],
                   map["generatorFuelFlowRate" := Number(0.5), "unknownKey" := Boolean(true)])
            == map["generatorFuelFlowRate" := Number(0.5), "other" := Number(5.0)]
  {
    var r := Merged(map["generatorFuelFlowRate" := Number(1.0), "other" := Number(5.0)],
                    map["generatorFuelFlowRate" := Number(0.5), "unknownKey" := Boolean(true)]);
    assert r.Keys == {"generatorFuelFlowRate", "other"};
  }

  /** A settings-style host object whose existing keys the patcher overwrites. */
  class ConfigObject {
    var entries: map<string, Value>

    constructor (entries: map<string, Value>)
      ensures this.entries == entries
    {
      this.entries := entries;
    }

    /** For every override key, scan the host keys and overwrite the equal one. */
    method MergeFrom(overrides: map<string, Value>)
      modifies this
      ensures entries == Merged(old(entries), overrides)
    {
      var pending := overrides.Keys;
      while pending != {}
        invariant pending <= overrides.Keys
        invariant entries == Merged(old(entries), overrides - pending)
        decreases pending
      {
        var value :| value in pending;
        ghost var before := entries;
        var settings := entries.Keys;
        while settings != {}
          invariant settings <= before.Keys
          invariant entries.Keys == before.Keys
          invariant forall s :: s in before && s !in settings ==>
                      entries[s] == if s == value then overrides[value] else before[s]
          invariant forall s :: s in settings ==> entries[s] == before[s]
          decreases settings
        {
          var setting :| setting in settings;
          if setting == value {
            entries := entries[setting := overrides[value]];
          }
          settings := settings - {setting};
        }
        assert entries == Merged(before, map[value := overrides[value]]);
        MergedStep(old(entries), overrides - pending, value, overrides[value]);
        assert (overrides - pending)[value := overrides[value]] == overrides - (pending - {value});
        pending := pending - {value};
      }
      assert overrides - {} == overrides;
    }
  }
}
