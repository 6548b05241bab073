/**
 * The place name shown for a reverse-geocoded position: the first present
 * of the address's locality, sub-administrative area and administrative
 * area, or "Unknown Location" when none of them is present.
 */
module PlaceNames {
  import opened Wrappers

  const UnknownLocation := "Unknown Location"

  /** One reverse-geocoding candidate, reduced to the three region names the view model reads. */
  datatype Address = Address(locality: Option<string>, subAdminArea: Option<string>, adminArea: Option<string>)

  /**
   * Reference definition of a fallback chain: the value of the first present
   * candidate, or `fallback` when none is present.
   */
  function FirstPresent(candidates: seq<Option<string>>, fallback: string): (r: string)
    ensures (forall i :: 0 <= i < |candidates| ==> candidates[i].None?) ==> r == fallback
    ensures forall i :: (0 <= i < |candidates| && candidates[i].Some? &&
                         forall j :: 0 <= j < i ==> candidates[j].None?) ==> r == candidates[i].value
  {
    if candidates == [] then fallback
    else if candidates[0].Some? then candidates[0].value
    else
      var rest := candidates[1..];
      assert forall i :: 0 < i < |candidates| ==> candidates[i] == rest[i - 1];
      FirstPresent(rest, fallback)
  }

  /**
   * `locality ?: subAdminArea ?: adminArea ?: "Unknown Location"`.
   * The chain tests for absence only: a present but empty name is kept.
   */
  function PlaceName(a: Address): (name: string)
    ensures a.locality == Some("") ==> name == ""
    ensures name == UnknownLocation || Some(name) == a.locality ||
            Some(name) == a.subAdminArea || Some(name) == a.adminArea
  {
    a.locality.GetOr(a.subAdminArea.GetOr(a.adminArea.GetOr(UnknownLocation)))
  }

  /** The chain picks the first present of locality, sub-admin area and admin area. */
  lemma PlaceNameIsFirstPresent(a: Address)
    ensures PlaceName(a) == FirstPresent([a.locality, a.subAdminArea, a.adminArea], UnknownLocation)
  {
    var chain := [a.locality, a.subAdminArea, a.adminArea];
    assert chain[0] == a.locality && chain[1] == a.subAdminArea && chain[2] == a.adminArea;
  }
}
