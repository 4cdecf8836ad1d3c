/** The user-agent profile: the classifier's result is copied field for
    field into a `UAResult`, which is then flattened into a JSON object with
    exactly seven string-valued keys. */
module UaProfile {
  import opened Wrappers
  import opened Maps

  /** The JSON values the handler produces (a subset of `serde_json::Value`). */
  datatype Value = String(str: string) | Object(fields: map<string, Value>)

  /** The user-agent classifier's result. */
  datatype WootheeResult = WootheeResult(
    name: string, category: string, os: string, osVersion: string,
    browserType: string, version: string, vendor: string)

  /** The serialisable profile. */
  datatype UAResult = UAResult(
    name: string, category: string, os: string, osVersion: string,
    browserType: string, version: string, vendor: string)

  /** `From<WootheeResult> for UAResult`. */
  function FromWoothee(def: WootheeResult): (ua: UAResult) {
    UAResult(def.name, def.category, def.os, def.osVersion,
             def.browserType, def.version, def.vendor)
  }

  /** The copy keeps every field unchanged, and so loses nothing: the
      classifier result can be read back from the profile. */
  lemma FromWootheeCopiesFields(def: WootheeResult)
    ensures FromWoothee(def).name == def.name && FromWoothee(def).category == def.category
    ensures FromWoothee(def).os == def.os && FromWoothee(def).osVersion == def.osVersion
    ensures FromWoothee(def).browserType == def.browserType
    ensures FromWoothee(def).version == def.version && FromWoothee(def).vendor == def.vendor
  {
  }

  /** Distinct classifier results give distinct profiles. */
  lemma FromWootheeInjective(a: WootheeResult, b: WootheeResult)
    requires FromWoothee(a) == FromWoothee(b)
    ensures a == b
  {
  }

  /** The seven JSON keys, in the order the source inserts them. */
  const ProfileKeys: seq<string> :=
    ["name", "category", "os", "os_version", "browser_type", "version", "vendor"]

  /** The seven `map.insert` calls of `From<UAResult> for Map<String, Value>`,
      in source order. */
  function ProfileEntries(ua: UAResult): (entries: seq<(string, Value)>)
    ensures |entries| == |ProfileKeys|
    ensures forall i :: 0 <= i < |entries| ==> entries[i].0 == ProfileKeys[i]
  {
    [("name", String(ua.name)),
     ("category", String(ua.category)),
     ("os", String(ua.os)),
     ("os_version", String(ua.osVersion)),
     ("browser_type", String(ua.browserType)),
     ("version", String(ua.version)),
     ("vendor", String(ua.vendor))]
  }

  /** The map built by those inserts, starting from `Map::new()`. */
  function ProfileMap(ua: UAResult): map<string, Value> {
    InsertAll(map[], ProfileEntries(ua))
  }

  /** `Value::Object(UAResult::from(result).into())`: the `browser_info`
      column of a view row. */
  function BrowserInfo(def: WootheeResult): Value {
    Object(ProfileMap(FromWoothee(def)))
  }

  /** The seven keys are pairwise different. */
  lemma ProfileKeysDistinct(ua: UAResult)
    ensures DistinctKeys(ProfileEntries(ua))
  {
  }

  /** Every insert adds a key not yet in the map, so none overwrites an
      earlier one and the result has exactly seven entries. */
  lemma ProfileMapNoOverwrite(ua: UAResult)
    ensures forall i :: 0 <= i < |ProfileKeys| ==>
              ProfileKeys[i] !in InsertAll(map[], ProfileEntries(ua)[..i])
    ensures |ProfileMap(ua)| == 7
  {
    var e := ProfileEntries(ua);
    ProfileKeysDistinct(ua);
    forall i | 0 <= i < |ProfileKeys|
      ensures ProfileKeys[i] !in InsertAll(map[], e[..i])
    {
      InsertAllNoOverwrite(map[], e, i);
    }
    InsertAllSize(map[], e);
  }

  /** The map has exactly the seven keys, each holding `Value::String` of
      the matching profile field. */
  lemma ProfileMapContents(ua: UAResult)
    ensures ProfileMap(ua).Keys ==
            {"name", "category", "os", "os_version", "browser_type", "version", "vendor"}
    ensures ProfileMap(ua)["name"] == String(ua.name)
    ensures ProfileMap(ua)["category"] == String(ua.category)
    ensures ProfileMap(ua)["os"] == String(ua.os)
    ensures ProfileMap(ua)["os_version"] == String(ua.osVersion)
    ensures ProfileMap(ua)["browser_type"] == String(ua.browserType)
    ensures ProfileMap(ua)["version"] == String(ua.version)
    ensures ProfileMap(ua)["vendor"] == String(ua.vendor)
  {
    var e := ProfileEntries(ua);
    ProfileKeysDistinct(ua);
    forall k | k in ProfileMap(ua)
      ensures k in {"name", "category", "os", "os_version", "browser_type", "version", "vendor"}
    {
      InsertAllHas(map[], e, k);
    }
    forall j | 0 <= j < |e|
      ensures e[j].0 in ProfileMap(ua) && ProfileMap(ua)[e[j].0] == e[j].1
    {
      InsertAllLastWins(map[], e, j);
    }
    assert e[0].0 == "name" && e[1].0 == "category" && e[2].0 == "os";
    assert e[3].0 == "os_version" && e[4].0 == "browser_type";
    assert e[5].0 == "version" && e[6].0 == "vendor";
  }

  /** Reading a profile back out of a JSON map: the seven string-valued
      keys, or nothing when one is missing or not a string. */
  function ProfileOf(m: map<string, Value>): Option<UAResult> {
    if forall k | k in ProfileKeys :: k in m && m[k].String? then
      Some(UAResult(m["name"].str, m["category"].str, m["os"].str, m["os_version"].str,
                    m["browser_type"].str, m["version"].str, m["vendor"].str))
    else None
  }

  /** Flattening is lossless: the profile read back from the map is the
      profile that was flattened. */
  lemma ProfileRoundTrip(ua: UAResult)
    ensures ProfileOf(ProfileMap(ua)) == Some(ua)
  {
    ProfileMapContents(ua);
  }

  /** The composed conversion has no failure path and carries the
      classifier's fields verbatim. */
  lemma BrowserInfoCarriesFields(def: WootheeResult)
    ensures BrowserInfo(def).Object?
    ensures ProfileOf(BrowserInfo(def).fields) ==
            Some(UAResult(def.name, def.category, def.os, def.osVersion,
                          def.browserType, def.version, def.vendor))
    ensures |BrowserInfo(def).fields| == 7
  {
    ProfileRoundTrip(FromWoothee(def));
    ProfileMapNoOverwrite(FromWoothee(def));
  }
}
