/** Construction of new ad records (ads.js:32-49). The clock readings and the
    random number are parameters; nothing here touches storage. */
module AdRecords {
  import opened Wrappers
  import opened Json
  import opened AdIds

  /** An ad record: the own properties of a plain object. */
  type Ad = map<string, Value>

  /** `createAd(type, payload, meta)`: `now` is `Date.now()`, `random` is
      `Math.random()` and `isoNow` is `new Date().toISOString()`; a `None`
      meta is an omitted argument and takes the default `{}`. */
  function CreateAd(adType: Value, payload: Value, meta: Option<Value>,
                    now: nat, random: real, isoNow: string): (ad: Ad)
    requires 0.0 <= random < 1.0
    ensures ad.Keys == {"id", "type", "payload", "meta", "createdAt"}
    ensures ad["type"] == adType && ad["payload"] == payload
    ensures ad["meta"] == (if meta.Some? then meta.value else Obj(map[]))
    ensures ad["createdAt"] == Str(isoNow)
    ensures ad["id"] == Str(MakeId(now, RandomSuffix(random)))
    ensures ad["id"].Str? && ParseId(ad["id"].s) == Some((now, RandomSuffix(random)))
    ensures RandomSuffix(random) < 1000
  {
    var suffix := RandomSuffix(random);
    ParseMakeId(now, suffix);
    map["id" := Str(MakeId(now, suffix)),
        "type" := adType,
        "payload" := payload,
        "meta" := if meta.Some? then meta.value else Obj(map[]),
        "createdAt" := Str(isoNow)]
  }

  /** `createAdFromURL(type, urlOrText, meta)`: its `'text'` branch passes the
      literal `'text'`, which is the value it has just compared equal. */
  function CreateAdFromURL(adType: Value, urlOrText: Value, meta: Option<Value>,
                           now: nat, random: real, isoNow: string): (ad: Ad)
    requires 0.0 <= random < 1.0
    ensures ad == CreateAd(adType, urlOrText, meta, now, random, isoNow)
  {
    if StrictEquals(adType, Str("text")) then
      CreateAd(Str("text"), urlOrText, meta, now, random, isoNow)
    else
      CreateAd(adType, urlOrText, meta, now, random, isoNow)
  }
}
