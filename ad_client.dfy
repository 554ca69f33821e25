/** Two uses of the store as page code makes them, with what a caller can
    conclude from the store's contracts alone. */
module AdClient {
  import opened Wrappers
  import opened Json
  import opened AdRecords
  import opened AdLists
  import opened AdStorage

  /** Create a text ad, save it as the only record, load again: the same
      record comes back, id and timestamp included. */
  method CreateSaveLoad(now: nat, random: real, isoNow: string) returns (ad: Ad, loaded: Value)
    requires 0.0 <= random < 1.0
    ensures ad.Keys == {"id", "type", "payload", "meta", "createdAt"}
    ensures ad["type"] == Str("text") && ad["payload"] == Str("Hello World")
    ensures ad["meta"] == Obj(map["title" := Str("Promo")])
    ensures loaded == Arr([Obj(ad)])
  {
    var store := new AdStore(None);
    ad := CreateAd(Str("text"), Str("Hello World"), Some(Obj(map["title" := Str("Promo")])), now, random, isoNow);
    store.SaveAds(Arr([Obj(ad)]), true);
    loaded := store.LoadAds();
  }

  /** Deleting an id held by two records removes both and keeps the rest. */
  method DeleteDuplicates(other: Ad) returns (loaded: Value)
    requires "id" !in other
    ensures loaded == Arr([Obj(other)])
  {
    var dup := Obj(map["id" := Str("ad_1_2")]);
    var store := new AdStore(Some(Text(Arr([dup, Obj(other), dup]))));
    var c := store.DeleteAd(Str("ad_1_2"), true);
    assert !Matches(Obj(other), Str("ad_1_2"));
    assert KeepOthers([dup, Obj(other), dup], Str("ad_1_2")) == [Obj(other)] by {
      assert [dup, Obj(other), dup][1..] == [Obj(other), dup];
      assert [Obj(other), dup][1..] == [dup];
      assert [dup][1..] == [];
    }
    loaded := store.LoadAds();
  }
}
