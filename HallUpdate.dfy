/** PUT `/update-hall/:id` of backend/routes/updateHall.js: the hall must
    have the given identifier and belong to the caller, and then every key of
    the body that is already a property of the hall document is written in
    place, one after the other; other keys are ignored. A hall document is a
    map from property names to values; its domain is the set of names
    `key in hall` accepts. */
module HallUpdate {
  import opened Common

  /** A property value of a hall document. */
  datatype Value = Str(s: string) | Number(n: int) | Strings(items: seq<string>)

  type HallDoc = map<string, Value>

  /** `Object.keys(updates)` with the values, in order. */
  type Updates = seq<(string, Value)>

  /** The hall after the `forEach` over the first `|updates|` keys. */
  function ApplyUpdates(hall: HallDoc, updates: Updates): HallDoc
  {
    if updates == [] then hall
    else
      var before := ApplyUpdates(hall, updates[..|updates| - 1]);
      var (key, value) := updates[|updates| - 1];
      if key in before then before[key := value] else before
  }

  /** The keys of the update that name one property. */
  predicate Names(updates: Updates, key: string)
  {
    exists k :: 0 <= k < |updates| && updates[k].0 == key
  }

  /** The value the last occurrence of `key` carries. */
  function LastValue(updates: Updates, key: string): Value
    requires Names(updates, key)
  {
    if updates[|updates| - 1].0 == key then updates[|updates| - 1].1
    else
      assert Names(updates[..|updates| - 1], key) by {
        var k :| 0 <= k < |updates| && updates[k].0 == key;
        assert k < |updates| - 1 && updates[..|updates| - 1][k].0 == key;
      }
      LastValue(updates[..|updates| - 1], key)
  }

  /** The update keeps the set of properties, leaves every property the body
      does not name as it was, and gives every named one the value of its
      last occurrence in the body. */
  lemma {:induction false} ApplyUpdatesMeaning(hall: HallDoc, updates: Updates)
    ensures ApplyUpdates(hall, updates).Keys == hall.Keys
    ensures forall key :: key in hall && !Names(updates, key) ==> ApplyUpdates(hall, updates)[key] == hall[key]
    ensures forall key :: key in hall && Names(updates, key) ==> ApplyUpdates(hall, updates)[key] == LastValue(updates, key)
  {
    if updates != [] {
      var init := updates[..|updates| - 1];
      ApplyUpdatesMeaning(hall, init);
      forall key | key in hall && Names(updates, key) && updates[|updates| - 1].0 != key
        ensures Names(init, key)
      {
        var k :| 0 <= k < |updates| && updates[k].0 == key;
        assert init[k].0 == key;
      }
    }
  }

  /** The body without the keys the hall does not have. */
  function KnownOnly(hall: HallDoc, updates: Updates): (r: Updates)
    ensures |r| <= |updates|
    ensures forall k :: 0 <= k < |r| ==> r[k].0 in hall
  {
    if updates == [] then []
    else
      var init := KnownOnly(hall, updates[..|updates| - 1]);
      if updates[|updates| - 1].0 in hall then init + [updates[|updates| - 1]] else init
  }

  /** Keys the hall does not have are ignored: dropping them from the body
      changes nothing. */
  lemma {:induction false} UnknownKeysAreIgnored(hall: HallDoc, updates: Updates)
    ensures ApplyUpdates(hall, KnownOnly(hall, updates)) == ApplyUpdates(hall, updates)
  {
    if updates != [] {
      var init := updates[..|updates| - 1];
      UnknownKeysAreIgnored(hall, init);
      ApplyUpdatesMeaning(hall, init);
      ApplyUpdatesMeaning(hall, KnownOnly(hall, init));
      var last := updates[|updates| - 1];
      if last.0 in hall {
        var known := KnownOnly(hall, init) + [last];
        assert known[..|known| - 1] == KnownOnly(hall, init);
      }
    }
  }

  /** The `String` paths models/Hall.js marks `required`. */
  predicate RequiredString(key: string)
  {
    key == "name" || key == "description" || key == "cateringPolicy" || key == "decorPolicy" || key == "phone"
  }

  /** The `required` validators `save` runs: a required string path must not
      hold the empty string. (The other required paths hold numbers, arrays
      or the owner; values of the body are never absent, and an array passes
      `required` even when empty.) */
  predicate HallValid(hall: HallDoc)
  {
    forall key :: key in hall && RequiredString(key) ==> hall[key] != Str("")
  }

  /** Starting from a stored, valid hall, the update breaks the validators
      exactly when the last value the body gives some required string path
      is the empty string. */
  lemma UpdateInvalidIffBlankRequired(hall: HallDoc, updates: Updates)
    requires HallValid(hall)
    ensures !HallValid(ApplyUpdates(hall, updates))
            <==> exists key :: key in hall && RequiredString(key) && Names(updates, key)
                               && LastValue(updates, key) == Str("")
  {
    ApplyUpdatesMeaning(hall, updates);
  }

  /** `findOne({ _id: hallId, owner: ownerId })`. */
  predicate OwnedHall(halls: map<string, HallDoc>, hallId: string, ownerId: string)
  {
    hallId in halls && "owner" in halls[hallId] && halls[hallId]["owner"] == Str(ownerId)
  }

  datatype Answer = InvalidHallId | HallNotFound | HallUpdated(hall: HallDoc) | SaveFailed

  function StatusCode(a: Answer): int
  {
    match a
    case InvalidHallId => 400
    case HallNotFound => 404
    case HallUpdated(_) => 200
    case SaveFailed => 500
  }

  /** The halls collection keyed by identifier. */
  class HallStore {
    var halls: map<string, HallDoc>

    constructor (halls: map<string, HallDoc>)
      ensures this.halls == halls
    {
      this.halls := halls;
    }

    /** PUT `/update-hall/:id` by the owner `ownerId`. The fields are
        changed on the loaded document; `save` validates it and, when a
        validator fails, writes nothing and the handler answers 500. */
    method UpdateHall(hallId: string, ownerId: string, updates: Updates) returns (a: Answer)
      modifies this
      ensures !IsValidObjectId(hallId) ==> a == InvalidHallId && halls == old(halls)
      ensures IsValidObjectId(hallId) && !OwnedHall(old(halls), hallId, ownerId)
              ==> a == HallNotFound && halls == old(halls)
      ensures IsValidObjectId(hallId) && OwnedHall(old(halls), hallId, ownerId) ==>
                var updated := ApplyUpdates(old(halls)[hallId], updates);
                if HallValid(updated) then halls == old(halls)[hallId := updated] && a == HallUpdated(updated)
                else halls == old(halls) && a == SaveFailed
    {
      if !IsValidObjectId(hallId) {
        return InvalidHallId;
      }
      if !OwnedHall(halls, hallId, ownerId) {
        return HallNotFound;
      }
      var hall := halls[hallId];
      var i := 0;
      while i < |updates|
        invariant 0 <= i <= |updates|
        invariant hall == ApplyUpdates(old(halls)[hallId], updates[..i])
      {
        var (key, value) := updates[i];
        assert updates[..i + 1][..i] == updates[..i];
        if key in hall {
          hall := hall[key := value];
        }
        i := i + 1;
      }
      assert updates[..i] == updates;
      if !HallValid(hall) {
        return SaveFailed;
      }
      halls := halls[hallId := hall];
      a := HallUpdated(hall);
    }
  }
}
