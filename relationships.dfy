/**
 * The relationship accessors of the file-storage configuration:
 * `State.cities` (models/state.py), `Place.reviews`, and the `Place.amenities`
 * getter and setter over the list `amenity_ids` that every Place shares
 * (models/place.py).
 */
module Relationships {
  import opened Wrappers
  import opened Attributes
  import opened Models

  /**
   * `o.<fk> == parentId`. An instance whose `fk` was never set reads `None`
   * through the mapped column, so it matches a parent whose id is `None`.
   */
  predicate RefersTo(o: BaseModel, fk: string, parentId: Value)
    reads o
  {
    (if fk in o.attrs then o.attrs[fk] else VNone) == parentId
  }

  /** A child without the foreign key belongs to a parent whose id is `None`, and to no other. */
  lemma UnsetRefersToNone(o: BaseModel, fk: string, parentId: Value)
    requires fk !in o.attrs
    ensures RefersTo(o, fk, parentId) <==> parentId == VNone
  {
  }

  /** `order` lists every key of `objs` exactly once: the iteration order of the dictionary. */
  predicate Enumerates(order: seq<string>, objs: map<string, BaseModel>) {
    && (forall k :: k in order ==> k in objs)
    && (forall k :: k in objs ==> k in order)
    && (forall i, j :: 0 <= i < j < |order| ==> order[i] != order[j])
  }

  /** A list of distinct keys has as many keys as elements. */
  lemma {:induction false} DistinctCount(order: seq<string>)
    requires forall i, j :: 0 <= i < j < |order| ==> order[i] != order[j]
    ensures |set k | k in order| == |order|
    decreases |order|
  {
    if order != [] {
      var rest := order[1..];
      assert forall i, j :: 0 <= i < j < |rest| ==> rest[i] == order[i + 1] && rest[j] == order[j + 1];
      DistinctCount(rest);
      assert (set k | k in order) == {order[0]} + (set k | k in rest);
      assert order[0] !in (set k | k in rest);
    }
  }

  /** An iteration order visits as many keys as the dictionary has. */
  lemma EnumeratesCount(order: seq<string>, objs: map<string, BaseModel>)
    requires Enumerates(order, objs)
    ensures |order| == |objs|
  {
    DistinctCount(order);
    assert (set k | k in order) == objs.Keys;
  }

  /**
   * `[v for _, v in objs.items() if v.<fk> == parentId]`, with the dictionary
   * visited in the order `order` lists its keys.
   */
  function Children(objs: map<string, BaseModel>, order: seq<string>, fk: string, parentId: Value): (r: seq<BaseModel>)
    requires forall k :: k in order ==> k in objs
    reads objs.Values
    ensures |r| <= |order|
    ensures forall o :: o in r ==> o in objs.Values && RefersTo(o, fk, parentId)
    ensures forall i :: 0 <= i < |order| && RefersTo(objs[order[i]], fk, parentId) ==> objs[order[i]] in r
  {
    if order == [] then []
    else
      var o := objs[order[0]];
      var rest := Children(objs, order[1..], fk, parentId);
      assert forall i :: 1 <= i < |order| ==> order[i] == order[1..][i - 1];
      assert forall k :: k in order[1..] ==> k in order;
      if RefersTo(o, fk, parentId) then [o] + rest else rest
  }

  /** The comprehension keeps dictionary order: walking two stretches of keys concatenates their results. */
  lemma {:induction false} ChildrenAppend(objs: map<string, BaseModel>, o1: seq<string>, o2: seq<string>, fk: string, parentId: Value)
    requires forall k :: k in o1 ==> k in objs
    requires forall k :: k in o2 ==> k in objs
    ensures Children(objs, o1 + o2, fk, parentId) == Children(objs, o1, fk, parentId) + Children(objs, o2, fk, parentId)
  {
    if o1 != [] {
      assert (o1 + o2)[0] == o1[0];
      assert (o1 + o2)[1..] == o1[1..] + o2;
      ChildrenAppend(objs, o1[1..], o2, fk, parentId);
    } else {
      assert o1 + o2 == o2;
    }
  }

  /** Nothing in `objs` refers to the parent exactly when the comprehension is empty. */
  lemma ChildrenEmpty(objs: map<string, BaseModel>, order: seq<string>, fk: string, parentId: Value)
    requires Enumerates(order, objs)
    ensures Children(objs, order, fk, parentId) == [] <==> forall k :: k in objs ==> !RefersTo(objs[k], fk, parentId)
  {
    var r := Children(objs, order, fk, parentId);
    if r == [] {
      forall k | k in objs ensures !RefersTo(objs[k], fk, parentId) {
        var i :| 0 <= i < |order| && order[i] == k;
      }
    } else {
      assert r[0] in r;
    }
  }

  /** `State.cities`: the cities in `storage.all(City)` whose `state_id` is the state's id. */
  function Cities(storage: FileStorage, state: BaseModel, order: seq<string>): (r: seq<BaseModel>)
    requires state.cls == State
    requires Enumerates(order, storage.All(Some(City)))
    reads storage, storage.objects.Values, state
    ensures |r| <= |storage.All(Some(City))|
    ensures forall c :: c in r ==> c in storage.objects.Values && c.cls == City && RefersTo(c, "state_id", state.attrs["id"])
    ensures forall k ::
              (k in storage.objects && storage.objects[k].cls == City && RefersTo(storage.objects[k], "state_id", state.attrs["id"]))
              ==> storage.objects[k] in r
  {
    var cities := storage.All(Some(City));
    EnumeratesCount(order, cities);
    assert forall k :: k in cities ==> k in order;
    Children(cities, order, "state_id", state.attrs["id"])
  }

  /** `Place.reviews`: the reviews in `storage.all(Review)` whose `place_id` is the place's id. */
  function Reviews(storage: FileStorage, place: BaseModel, order: seq<string>): (r: seq<BaseModel>)
    requires place.cls == Place
    requires Enumerates(order, storage.All(Some(Review)))
    reads storage, storage.objects.Values, place
    ensures |r| <= |storage.All(Some(Review))|
    ensures forall v :: v in r ==> v in storage.objects.Values && v.cls == Review && RefersTo(v, "place_id", place.attrs["id"])
    ensures forall k ::
              (k in storage.objects && storage.objects[k].cls == Review && RefersTo(storage.objects[k], "place_id", place.attrs["id"]))
              ==> storage.objects[k] in r
  {
    var reviews := storage.All(Some(Review));
    EnumeratesCount(order, reviews);
    assert forall k :: k in reviews ==> k in order;
    Children(reviews, order, "place_id", place.attrs["id"])
  }

  /** A state none of whose cities is in storage has an empty `cities`. */
  lemma CitiesEmpty(storage: FileStorage, state: BaseModel, order: seq<string>)
    requires state.cls == State
    requires Enumerates(order, storage.All(Some(City)))
    ensures Cities(storage, state, order) == [] <==>
              forall k :: k in storage.objects && storage.objects[k].cls == City ==>
                !RefersTo(storage.objects[k], "state_id", state.attrs["id"])
  {
    ChildrenEmpty(storage.All(Some(City)), order, "state_id", state.attrs["id"]);
  }

  // ------------------------------------------------------------ amenities

  /** The setter's rule: append the id of a new Amenity, ignore anything else. */
  function Appended(ids: seq<Value>, value: Option<(ClassName, Value)>): (r: seq<Value>)
    ensures ids <= r && |r| <= |ids| + 1
    ensures value.Some? && value.value.0 == Amenity ==> value.value.1 in r
    ensures forall x :: x in r ==> x in ids || (value.Some? && value.value.0 == Amenity && x == value.value.1)
  {
    if value.Some? && value.value.0 == Amenity && value.value.1 !in ids then ids + [value.value.1] else ids
  }

  predicate NoDuplicates(ids: seq<Value>) {
    forall i, j :: 0 <= i < j < |ids| ==> ids[i] != ids[j]
  }

  /** The setter keeps earlier entries, grows the list by at most one, and only by a new Amenity id. */
  lemma AppendedShape(ids: seq<Value>, value: Option<(ClassName, Value)>)
    ensures var r := Appended(ids, value);
      && r[..|ids|] == ids
      && |ids| <= |r| <= |ids| + 1
      && (|r| == |ids| + 1 <==> value.Some? && value.value.0 == Amenity && value.value.1 !in ids)
      && (|r| == |ids| + 1 ==> r[|ids|] == value.value.1)
      && (value.Some? && value.value.0 == Amenity ==> value.value.1 in r)
  {
    var r := Appended(ids, value);
    if |r| == |ids| + 1 {
      assert r == ids + [value.value.1];
    }
  }

  /** The shared list never gains a duplicate. */
  lemma AppendedNoDuplicates(ids: seq<Value>, value: Option<(ClassName, Value)>)
    requires NoDuplicates(ids)
    ensures NoDuplicates(Appended(ids, value))
  {
    var r := Appended(ids, value);
    if r != ids {
      forall i, j | 0 <= i < j < |r| ensures r[i] != r[j] {
        if j == |ids| {
          assert r[i] == ids[i];
        } else {
          assert r[i] == ids[i] && r[j] == ids[j];
        }
      }
    }
  }

  /** Setting the same value twice has the effect of setting it once. */
  lemma AppendedIdempotent(ids: seq<Value>, value: Option<(ClassName, Value)>)
    ensures Appended(Appended(ids, value), value) == Appended(ids, value)
  {
    if value.Some? && value.value.0 == Amenity {
      AppendedShape(ids, value);
    }
  }

  /**
   * The `Place` class object, which owns the class attribute `amenity_ids`:
   * every Place reads and appends to this one list.
   */
  class PlaceClass {
    var amenityIds: seq<Value>

    constructor ()
      ensures amenityIds == []
    {
      amenityIds := [];
    }

    /** The `amenities` getter on `place`: the shared list, whichever place asks. */
    function Amenities(place: BaseModel): (r: seq<Value>)
      reads this
      ensures r == amenityIds
    {
      amenityIds
    }

    /** Every place sees the same list. */
    lemma AmenitiesShared(p1: BaseModel, p2: BaseModel)
      ensures Amenities(p1) == Amenities(p2)
    {
    }

    /**
     * `place.amenities = value`: the class name and id of `value` decide;
     * `None` (no value) never matches `'Amenity'`.
     */
    method SetAmenities(place: BaseModel, value: BaseModel?)
      modifies this
      ensures value == null ==> amenityIds == old(amenityIds)
      ensures value != null ==> amenityIds == Appended(old(amenityIds), Some((value.cls, value.attrs["id"])))
    {
      if value != null && value.cls == Amenity && value.attrs["id"] !in amenityIds {
        amenityIds := amenityIds + [value.attrs["id"]];
      }
    }

    /** An append made through one place shows through every other place. */
    method SetThenGet(p1: BaseModel, p2: BaseModel, value: BaseModel)
      modifies this
      ensures Amenities(p2) == Appended(old(Amenities(p1)), Some((value.cls, value.attrs["id"])))
    {
      SetAmenities(p1, value);
    }
  }
}
