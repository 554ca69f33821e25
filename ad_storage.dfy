/** The ad store itself (ads.js:6-25, 51-70): one list of ad records kept as
    JSON text under the single `localStorage` key `site_ads_v1`. */
module AdStorage {
  import opened Wrappers
  import opened Json
  import opened AdLists

  /** What the key can hold, up to what `JSON.parse` makes of it: the empty
      string, a text that parses to a value, or a text `JSON.parse` rejects
      (the last two only when something else wrote the key). */
  datatype Blob = EmptyText | Text(value: Value) | Unparsable

  /** Whether `deleteAd` or `updateAd` returned or threw. */
  datatype Completion = Normal | ThrowsTypeError

  /** `loadAds()` on a storage slot (`None`: the key is absent). An absent
      key and the empty string are falsy and give `[]`; an unparsable text
      is caught and gives `[]`; otherwise the parsed value is returned as it
      is, whether or not it is an array. Loading never throws. */
  function Decode(slot: Option<Blob>): (r: Value)
    ensures slot == None || slot == Some(EmptyText) || slot == Some(Unparsable) ==> r == Arr([])
    ensures forall v :: slot == Some(Text(v)) ==> r == v
  {
    match slot
    case None => Arr([])
    case Some(EmptyText) => Arr([])
    case Some(Unparsable) => Arr([])
    case Some(Text(v)) => v
  }

  /** Clearing the key and saving an empty list load alike but are
      different storage states. */
  lemma ClearIsNotSaveEmpty()
    ensures Decode(None) == Decode(Some(Text(Arr([]))))
    ensures None != Some(Text(Arr([])))
  {
  }

  class AdStore {
    /** `localStorage.getItem('site_ads_v1')`. */
    var slot: Option<Blob>

    constructor (initial: Option<Blob>)
      ensures slot == initial
    {
      slot := initial;
    }

    /** `loadAds()` on the store's current slot. */
    function LoadAds(): (r: Value)
      reads this
      ensures r == Decode(slot)
      ensures slot == None || slot == Some(EmptyText) || slot == Some(Unparsable) ==> r == Arr([])
      ensures forall v :: slot == Some(Text(v)) ==> r == v
    {
      Decode(slot)
    }

    /** `saveAds(ads)`: a write that succeeds replaces the key's text with
        `JSON.stringify(ads)`, which loads back as `ads`; a write that fails
        (quota exceeded) is caught and leaves the key as it was. */
    method SaveAds(ads: Value, writeSucceeds: bool)
      modifies this
      ensures slot == if writeSucceeds then Some(Text(ads)) else old(slot)
      ensures writeSucceeds ==> LoadAds() == ads
      ensures !writeSucceeds ==> LoadAds() == old(LoadAds())
    {
      if writeSucceeds {
        slot := Some(Text(ads));
      }
    }

    /** `deleteAd(id)`: load, filter out every record with the id, save. It
        throws when the loaded value is not an array or holds a `null`, and
        otherwise always writes back, even when nothing matched. */
    method DeleteAd(id: Value, writeSucceeds: bool) returns (c: Completion)
      modifies this
      ensures c == ThrowsTypeError <==> !Decode(old(slot)).Arr? || !NullFree(Decode(old(slot)).items)
      ensures c == ThrowsTypeError || !writeSucceeds ==> slot == old(slot)
      ensures c == Normal && writeSucceeds ==>
                slot == Some(Text(Arr(KeepOthers(Decode(old(slot)).items, id))))
      ensures c == Normal && writeSucceeds ==>
                LoadAds().Arr? && forall x :: x in LoadAds().items ==> !Matches(x, id)
      ensures Decode(old(slot)) == Arr([]) ==>
                c == Normal && (writeSucceeds ==> slot == Some(Text(Arr([]))))
      ensures c == Normal && writeSucceeds && (forall x :: x in Decode(old(slot)).items ==> !Matches(x, id)) ==>
                slot == Some(Text(Decode(old(slot))))
    {
      var ads := LoadAds();
      if !ads.Arr? || !NullFree(ads.items) {
        return ThrowsTypeError;
      }
      SaveAds(Arr(KeepOthers(ads.items, id)), writeSucceeds);
      return Normal;
    }

    /** `updateAd(id, patch)`: load, find the first record with the id, merge
        the patch into it in place and save. It throws when the loaded value
        is not an array or a `null` comes before the first match; when
        nothing matches it writes nothing. */
    method UpdateAd(id: Value, patch: map<string, Value>, writeSucceeds: bool) returns (c: Completion)
      modifies this
      ensures c == ThrowsTypeError <==>
                !Decode(old(slot)).Arr? || FirstMatch(Decode(old(slot)).items, id).Threw?
      ensures Decode(old(slot)).Arr? && FirstMatch(Decode(old(slot)).items, id).Found? && writeSucceeds ==>
                slot == Some(Text(Arr(Patched(Decode(old(slot)).items,
                                              FirstMatch(Decode(old(slot)).items, id).index, patch))))
      ensures !(Decode(old(slot)).Arr? && FirstMatch(Decode(old(slot)).items, id).Found? && writeSucceeds) ==>
                slot == old(slot)
    {
      var ads := LoadAds();
      if !ads.Arr? {
        return ThrowsTypeError;
      }
      var search := FindIndex(ads.items, id);
      match search
      case Threw =>
        c := ThrowsTypeError;
      case Missing =>
        c := Normal;
      case Found(idx) =>
        var list := new Value[|ads.items|](j requires 0 <= j < |ads.items| => ads.items[j]);
        assert list[..] == ads.items;
        list[idx] := Obj(list[idx].fields + patch);
        assert list[..] == Patched(ads.items, idx, patch);
        SaveAds(Arr(list[..]), writeSucceeds);
        c := Normal;
    }

    /** `clearAllAds()`: removes the key, after which loading gives `[]`. */
    method ClearAllAds()
      modifies this
      ensures slot == None
      ensures LoadAds() == Arr([])
    {
      slot := None;
    }
  }
}
