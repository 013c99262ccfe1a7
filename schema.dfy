/** The permit record fetched from the backend and the record-level notions
    the filters share. */
module Schema {
  import opened Ascii

  datatype Option<T> = None | Some(value: T)

  /** One mobile food-vending permit. `applicant` and `status` are optional
      because the filters read them with optional chaining; the coordinates
      are optional because the geolocation filter tests them for `undefined`. */
  datatype FoodTruck = FoodTruck(
    objectid: int,
    applicant: Option<string>,
    status: Option<string>,
    fooditems: Option<string>,
    address: string,
    latitude: Option<real>,
    longitude: Option<real>)

  /** `truck.status?.toUpperCase() || ""`: the upper-cased status, with a
      missing status read as the empty string. */
  function CanonicalStatus(t: FoodTruck): (s: string)
    ensures t.status.None? ==> s == ""
    ensures t.status.Some? ==> |s| == |t.status.value|
    ensures forall i :: 0 <= i < |s| ==> !IsLowerChar(s[i])
    ensures t.status.Some? ==> forall i :: 0 <= i < |s| ==> s[i] == UpperChar(t.status.value[i])
  {
    match t.status
    case None => ""
    case Some(st) => ToUpper(st)
  }
}
