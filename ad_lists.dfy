/** The list operations that `deleteAd` and `updateAd` apply to the loaded
    array (ads.js:53, 60, 62): `filter`, `findIndex` and the object-spread
    merge. */
module AdLists {
  import opened Json

  /** The record is found by `a.id === id`: exactly an object whose own `id`
      is the same primitive. False on `null`, where evaluating `a.id` throws
      instead. */
  predicate Matches(a: Value, id: Value)
    ensures Matches(a, id) <==> a.Obj? && "id" in a.fields && a.fields["id"] == id && Primitive(id)
  {
    match ReadId(a)
    case Defined(x) => StrictEquals(x, id)
    case _ => false
  }

  /** No element on which `a.id` throws. */
  predicate NullFree(s: seq<Value>) {
    forall i :: 0 <= i < |s| ==> !s[i].Null?
  }

  /** `s.filter(a => a.id !== id)` for a null-free `s`: every record with the
      id goes, all others stay. */
  function KeepOthers(s: seq<Value>, id: Value): (r: seq<Value>)
    ensures forall x :: x in r <==> x in s && !Matches(x, id)
    ensures r == s <==> forall x :: x in s ==> !Matches(x, id)
    ensures r != s ==> |r| < |s|
    decreases |s|
  {
    if s == [] then []
    else (if Matches(s[0], id) then [] else [s[0]]) + KeepOthers(s[1..], id)
  }

  /** Filtering works element by element, so the kept records stay in their
      relative order. */
  lemma {:induction false} KeepOthersAppend(s: seq<Value>, t: seq<Value>, id: Value)
    ensures KeepOthers(s + t, id) == KeepOthers(s, id) + KeepOthers(t, id)
    decreases |s|
  {
    if s == [] {
      assert s + t == t;
    } else {
      assert (s + t)[0] == s[0];
      assert (s + t)[1..] == s[1..] + t;
      KeepOthersAppend(s[1..], t, id);
    }
  }

  /** Deleting twice is deleting once. */
  lemma KeepOthersIdempotent(s: seq<Value>, id: Value)
    ensures KeepOthers(KeepOthers(s, id), id) == KeepOthers(s, id)
  {
  }

  /** The outcome of `s.findIndex(a => a.id === id)`: an index, `-1`, or the
      TypeError that `a.id` raises on a `null` reached before any match. */
  datatype Search = Found(index: nat) | Missing | Threw

  /** Every element in `s[lo..hi]` is a non-null non-match. */
  predicate Passed(s: seq<Value>, id: Value, lo: nat, hi: nat)
    requires lo <= hi <= |s|
  {
    forall j :: lo <= j < hi ==> !s[j].Null? && !Matches(s[j], id)
  }

  /** The search `findIndex` makes, started at index `k`. */
  function FirstMatchFrom(s: seq<Value>, id: Value, k: nat): (r: Search)
    requires k <= |s|
    ensures r.Found? ==> k <= r.index < |s| && Matches(s[r.index], id) && Passed(s, id, k, r.index)
    ensures r.Missing? <==> Passed(s, id, k, |s|)
    ensures r.Threw? ==> exists j :: k <= j < |s| && s[j].Null? && Passed(s, id, k, j)
    decreases |s| - k
  {
    if k == |s| then Missing
    else if s[k].Null? then assert Passed(s, id, k, k); Threw
    else if Matches(s[k], id) then Found(k)
    else FirstMatchFrom(s, id, k + 1)
  }

  function FirstMatch(s: seq<Value>, id: Value): (r: Search)
    ensures r.Found? ==> r.index < |s| && Matches(s[r.index], id) && Passed(s, id, 0, r.index)
    ensures r.Missing? <==> Passed(s, id, 0, |s|)
    ensures r.Threw? ==> exists j :: 0 <= j < |s| && s[j].Null? && Passed(s, id, 0, j)
  {
    FirstMatchFrom(s, id, 0)
  }

  /** A match preceded only by non-null non-matches is the one found. */
  lemma FirstMatchFromAt(s: seq<Value>, id: Value, k: nat, i: nat)
    requires k <= i < |s| && Matches(s[i], id) && Passed(s, id, k, i)
    ensures FirstMatchFrom(s, id, k) == Found(i)
  {
  }

  /** `findIndex` as the loop it runs. */
  method FindIndex(s: seq<Value>, id: Value) returns (r: Search)
    ensures r == FirstMatch(s, id)
  {
    var i := 0;
    while i < |s|
      invariant 0 <= i <= |s|
      invariant FirstMatchFrom(s, id, i) == FirstMatch(s, id)
      decreases |s| - i
    {
      if s[i].Null? {
        return Threw;
      }
      if Matches(s[i], id) {
        return Found(i);
      }
      i := i + 1;
    }
    return Missing;
  }

  /** `ads[i] = { ...ads[i], ...patch }`: the record at `i` gets the patch's
      fields over its own, and nothing else in the list changes. */
  function Patched(s: seq<Value>, i: nat, patch: map<string, Value>): (r: seq<Value>)
    requires i < |s| && s[i].Obj?
    ensures |r| == |s|
    ensures forall j :: 0 <= j < |s| && j != i ==> r[j] == s[j]
    ensures r[i].Obj? && r[i].fields.Keys == s[i].fields.Keys + patch.Keys
    ensures forall key :: key in patch ==> r[i].fields[key] == patch[key]
    ensures forall key :: key in s[i].fields && key !in patch ==> r[i].fields[key] == s[i].fields[key]
  {
    s[i := Obj(s[i].fields + patch)]
  }

  /** After a delete, a later update or delete of the same id finds nothing. */
  lemma DeleteThenFindMissing(s: seq<Value>, id: Value)
    requires NullFree(s)
    ensures FirstMatch(KeepOthers(s, id), id) == Missing
  {
  }

  /** A patch that leaves the id alone keeps the patched record the first
      match, so repeated updates of one id land on the same record. */
  lemma UpdateKeepsFirstMatch(s: seq<Value>, id: Value, patch: map<string, Value>)
    requires FirstMatch(s, id).Found?
    requires "id" !in patch
    ensures FirstMatch(Patched(s, FirstMatch(s, id).index, patch), id) == FirstMatch(s, id)
  {
  }
}
