# Ad store model

A Dafny model of `ads.js`, the browser-side ad store of the panel site. It keeps
one list of ad records as JSON text under the single `localStorage` key
`site_ads_v1`. It offers seven operations: load, save, create,
create-from-URL, delete by id, partial update by id, and clear.

Modules:

- `Json` (json.dfy): the values `JSON.parse` produces, the property read
  `a.id`, and `===` on parsed values.
- `AdIds` (ad_ids.dfy): the identifier `"ad_" + Date.now() + "_" + suffix`,
  its decimal spelling, and `ParseId`, which inverts it.
- `AdRecords` (ad_records.dfy): `createAd` and `createAdFromURL` as functions.
  The two clock readings and `Math.random()` are parameters.
- `AdLists` (ad_lists.dfy): the `filter`, `findIndex` and object-spread
  merge that delete and update apply to the loaded array. `findIndex` is a
  search loop proved against a recursive specification.
- `AdStorage` (ad_storage.dfy): the storage slot as a `Blob`, `Decode`
  (what `loadAds` returns), and the class `AdStore` whose field `slot` is the
  key's content. Its methods save, delete, update and clear.
- `AdClient` (ad_client.dfy): two caller scenarios. One creates, saves and
  loads. The other deletes an id that two records share.

The slot is `None` when the key is absent. Otherwise it holds one of three
things: the empty string, a text that parses to a JSON value, or a text
`JSON.parse` rejects. Three behaviours of the code are worth stating outright:

- `deleteAd` and `updateAd` can throw a TypeError. `loadAds` returns
  whatever parses, even when it is not an array, and `filter` or `findIndex`
  on such a value throws. They also throw when `a.id` is read on a `null`
  element: `filter` reads every element, while `findIndex` reads only the
  elements up to the first match. The model returns `ThrowsTypeError` in
  these cases and leaves the slot unchanged.
- `filter` removes every record with the id, not just one.
- Nothing makes ids unique. `MakeIdInjective` shows that two ids are equal
  exactly when both the millisecond and the random suffix (one of 1000
  values) are equal.

A write failure, such as quota exceeded, is the `writeSucceeds` parameter of
every operation that saves.

## Model

| member | source | states |
|---|---|---|
| `Json.ReadId` | ads.js:60 | `a.id` throws exactly on `null`. It is defined exactly on an object that has an own `id` property, and then gives that property. |
| `Json.StrictEquals` | ads.js:53 | `===` between a parsed value and the caller's id holds exactly when they are equal primitives. Parsed arrays and objects equal nothing. |
| `AdIds.Decimal` | ads.js:34 | The decimal spelling of a number is non-empty, contains only digits, and starts with `0` exactly when the number is 0 (no leading zeros). |
| `AdIds.DecimalRoundTrip` | ads.js:34 | Reading the digits of the decimal spelling gives back the number. |
| `AdIds.RandomSuffix` | ads.js:34 | `Math.floor(Math.random()*1000)` lies in 0..999 and is the floor of `random * 1000`. |
| `AdIds.MakeId` | ads.js:34 | The id is `ad_`, the clock's digits, one `_` and the suffix's digits. `ParseMakeId` reads it back, and `MakeIdInjective` shows it determines both inputs. |
| `AdIds.ParseMakeId` | ads.js:34 | Parsing an id built from `now` and `suffix` gives back exactly `(now, suffix)`. |
| `AdIds.MakeIdInjective` | ads.js:34 | Two ids are equal if and only if their clock readings and random suffixes are equal. |
| `AdRecords.CreateAd` | ads.js:32-40 | The record has exactly the fields id, type, payload, meta and createdAt. type, payload and createdAt are the arguments. meta is the argument, or `{}` when it is omitted. The id is exactly `MakeId` of the clock reading and the random suffix, which is below 1000, and it parses back to both. |
| `AdRecords.CreateAdFromURL` | ads.js:43-49 | For every type, including `'text'`, the result equals `createAd` with the same arguments. |
| `AdLists.Matches` | ads.js:60 | A record matches exactly when it is an object whose own `id` equals the id, and the id is a primitive. |
| `AdLists.KeepOthers` | ads.js:53 | A value is kept if and only if it was in the list and does not match. The result is the list unchanged if and only if nothing matched. Otherwise it is strictly shorter. |
| `AdLists.KeepOthersAppend` | ads.js:53 | The filter distributes over concatenation, so kept records keep their relative order. |
| `AdLists.KeepOthersIdempotent` | ads.js:52-55 | Filtering the same id twice gives the same list as filtering once. |
| `AdLists.FirstMatchFrom` | ads.js:60 | A search from index k has three outcomes. Found gives a matching index with only non-null non-matches before it. Missing happens exactly when every element from k on is a non-null non-match. Threw means a `null` comes before any match. |
| `AdLists.FirstMatch` | ads.js:60 | The `findIndex` outcome over the whole list, characterised by the same three cases. |
| `AdLists.FirstMatchFromAt` | ads.js:60 | A match preceded only by non-null non-matches is the index that is found. |
| `AdLists.FindIndex` | ads.js:60 | The search loop returns exactly the FirstMatch outcome. |
| `AdLists.Patched` | ads.js:62 | The length is unchanged and every other index is unchanged. The patched record has the union of both key sets. Patch fields win, and the other old fields are kept. |
| `AdLists.DeleteThenFindMissing` | ads.js:52-65 | After deleting an id from a null-free list, a search for that id finds nothing. |
| `AdLists.UpdateKeepsFirstMatch` | ads.js:58-65 | A patch without an `id` field keeps the patched record as the first match for the id. |
| `AdStorage.AdStore.LoadAds` | ads.js:9-17 | Loading the store gives `Decode` of its slot: `[]` for an absent key, an empty string or unparsable text, and the parsed value otherwise. |
| `AdStorage.Decode` | ads.js:9-17 | Loading gives `[]` for an absent key, an empty string or unparsable text. Otherwise it gives the parsed value. It never fails. |
| `AdStorage.ClearIsNotSaveEmpty` | ads.js:68-70 | An absent key and a saved `[]` load the same, but they are different storage states. |
| `AdStorage.AdStore.SaveAds` | ads.js:19-25 | A successful write stores the value, and loading then returns exactly that value. A failed write leaves the slot unchanged. |
| `AdStorage.AdStore.DeleteAd` | ads.js:52-55 | It throws exactly when the loaded value is not an array or contains a `null`, and then the slot is unchanged. Otherwise it always writes the filtered list, so no record with the id remains. An absent or corrupt key becomes a stored `[]`. An id that is not present writes back the loaded list. |
| `AdStorage.AdStore.UpdateAd` | ads.js:58-65 | It throws exactly when the loaded value is not an array or a `null` precedes the first match. On a match, a successful write stores the list with only the first matching record merged. In every other case, including no match on corrupt data, the slot is unchanged. |
| `AdStorage.AdStore.ClearAllAds` | ads.js:68-70 | The key becomes absent, and loading then gives `[]`. |
| `AdClient.CreateSaveLoad` | ads.js:9-40 | A created text ad that is saved alone loads back as exactly `[thatAd]`. |
| `AdClient.DeleteDuplicates` | ads.js:52-55 | Deleting an id held by two records leaves only the other record. |

## Left out

- The `localStorage` API and the JSON text format. The slot holds the stored text only up to what `JSON.parse` makes of it. Two texts that parse to the same value are one state, and `JSON.stringify` then `JSON.parse` is the identity on values.
- Values `JSON.stringify` cannot encode (`undefined`, functions, cycles, BigInt). Page code never passes such values.
- Storage that is disabled or inaccessible. Then `getItem` throws (caught in `loadAds`), and `removeItem` in `clearAllAds` throws outside any `try`. `AdStorage.AdStore.ClearAllAds` always succeeds in the model.
- IEEE-754 numbers. JSON numbers are exact reals, so `NaN`, `Infinity` and rounding are not modelled. `Math.random() * 1000` is exact real arithmetic; with doubles its floor is still below 1000.
- Property order of objects and the aliasing of the `meta` object the caller passes. A record is the map of its own properties.
- The `id` argument of delete and update is a JSON value. Calling them with the argument omitted (`undefined`, which would match every record without an id) is not modelled.
- `AdIds.Decimal`: the clock reading is a non-negative integer below which JavaScript prints plain digits. Negative clocks and exponent notation (from 10^21 upward) are not modelled.
- `AdRecords.CreateAd`: `toISOString` formatting is not modelled. The timestamp is taken as an already formatted string.
- `console.error` logging in load and save. It has no observable state.
- `Date.now`, `new Date()` and `Math.random`. They are parameters.
- The `window.AdStore` export object (ads.js:73-81). It only plumbs the functions to pages.
- Id uniqueness and validation of the `type` field. The code checks neither.
- Concurrent writers. The code is single-threaded, and load-modify-save interleavings are not considered.
