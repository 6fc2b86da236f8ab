/**
 * Geocoder result selection (app.js, geocodeLocation): from the decoded
 * array of geocoder records, take the first U.S. record and turn it into a
 * Location whose display name is "city, state" or the bare city.
 */
module Geocoder {
  import opened Wrappers

  /** The `address` object of a geocoder record; each field may be missing. */
  datatype Address = Address(
    countryCode: Option<string>,
    state: Option<string>,
    region: Option<string>,
    city: Option<string>,
    town: Option<string>,
    village: Option<string>,
    hamlet: Option<string>)

  /** One record of the geocoder's JSON array; `address` may be missing. */
  datatype GeoRecord = GeoRecord(name: string, lat: string, lon: string, address: Option<Address>)

  /** What the rest of the widget knows of a place; `displayName` is its key. */
  datatype Location = Location(displayName: string, lat: string, lon: string)

  /** The geocoder's HTTP reply: the `response.ok` flag and the decoded records. */
  datatype GeoReply = GeoReply(ok: bool, records: seq<GeoRecord>)

  /** The two errors geocodeLocation throws. */
  datatype GeocodeError = SearchUnavailable | NoUSMatch {
    function Message(): string {
      match this
      case SearchUnavailable => "Unable to search locations right now."
      case NoUSMatch => "No matching U.S. location found. Try city and state."
    }
  }

  /** JavaScript truthiness of an optional string: present and non-empty. */
  predicate Truthy(v: Option<string>) {
    v.Some? && v.value != ""
  }

  /** The `results.find` test: the record has an address whose country code is exactly "us". */
  predicate IsUS(rec: GeoRecord) {
    rec.address.Some? && rec.address.value.countryCode == Some("us")
  }

  /** `results.find(IsUS)`, as an index: the first U.S. record, or None when there is none. */
  function FindUS(records: seq<GeoRecord>): (r: Option<nat>)
    ensures r.Some? ==> r.value < |records| && IsUS(records[r.value])
    ensures r.Some? ==> forall j :: 0 <= j < r.value ==> !IsUS(records[j])
    ensures r.None? <==> forall j :: 0 <= j < |records| ==> !IsUS(records[j])
    decreases |records|
  {
    if records == [] then None
    else if IsUS(records[0]) then Some(0)
    else match FindUS(records[1..])
      case None => None
      case Some(i) => Some(i + 1)
  }

  /**
   * The `a || b || … || fallback` chain over optional strings: the first
   * truthy candidate, or the fallback (as it is) when none is truthy.
   */
  function FirstTruthy(candidates: seq<Option<string>>, fallback: string): (r: string)
    ensures (forall i :: 0 <= i < |candidates| ==> !Truthy(candidates[i])) ==> r == fallback
    ensures forall i ::
      (0 <= i < |candidates| && Truthy(candidates[i]) && forall j :: 0 <= j < i ==> !Truthy(candidates[j]))
      ==> r == candidates[i].value
    decreases |candidates|
  {
    if candidates == [] then fallback
    else if Truthy(candidates[0]) then candidates[0].value
    else FirstTruthy(candidates[1..], fallback)
  }

  /** `address.state || address.region || ''`: state preferred, then region, else empty. */
  function StateOf(a: Address): (r: string)
    ensures Truthy(a.state) ==> r == a.state.value
    ensures !Truthy(a.state) && Truthy(a.region) ==> r == a.region.value
    ensures r == "" <==> !Truthy(a.state) && !Truthy(a.region)
  {
    var cands := [a.state, a.region];
    assert cands[0] == a.state && cands[1] == a.region;
    FirstTruthy(cands, "")
  }

  /**
   * `address.city || address.town || address.village || address.hamlet || name`:
   * the first non-empty of the four address fields, and the record's name
   * only when all four are missing or empty.
   */
  function CityOf(rec: GeoRecord, a: Address): (r: string)
    ensures Truthy(a.city) ==> r == a.city.value
    ensures !Truthy(a.city) && Truthy(a.town) ==> r == a.town.value
    ensures !Truthy(a.city) && !Truthy(a.town) && Truthy(a.village) ==> r == a.village.value
    ensures !Truthy(a.city) && !Truthy(a.town) && !Truthy(a.village) && Truthy(a.hamlet)
      ==> r == a.hamlet.value
    ensures !Truthy(a.city) && !Truthy(a.town) && !Truthy(a.village) && !Truthy(a.hamlet)
      ==> r == rec.name
    ensures Truthy(a.city) || Truthy(a.town) || Truthy(a.village) || Truthy(a.hamlet) ==> r != ""
  {
    var cands := [a.city, a.town, a.village, a.hamlet];
    assert cands[0] == a.city && cands[1] == a.town && cands[2] == a.village && cands[3] == a.hamlet;
    FirstTruthy(cands, rec.name)
  }

  /**
   * The template `state ? `${city}, ${state}` : city`. The city is always a
   * prefix, the name is the bare city exactly when the state is empty, and
   * otherwise the state follows the ", " separator.
   */
  function DisplayName(city: string, state: string): (r: string)
    ensures |city| <= |r| && r[..|city|] == city
    ensures r == city <==> state == ""
    ensures state != "" ==> r[|city|..] == ", " + state
  {
    if state != "" then city + ", " + state else city
  }

  /** The Location built from a record that has an address. */
  function LocationOf(rec: GeoRecord): (loc: Location)
    requires rec.address.Some?
    ensures loc.lat == rec.lat && loc.lon == rec.lon
    ensures StateOf(rec.address.value) == "" ==> loc.displayName == CityOf(rec, rec.address.value)
    ensures StateOf(rec.address.value) != "" ==>
      loc.displayName == CityOf(rec, rec.address.value) + ", " + StateOf(rec.address.value)
  {
    var a := rec.address.value;
    Location(DisplayName(CityOf(rec, a), StateOf(a)), rec.lat, rec.lon)
  }

  /** True when `i` is the index `results.find` stops at. */
  predicate FirstUSAt(records: seq<GeoRecord>, i: int) {
    0 <= i < |records| && IsUS(records[i]) && forall j :: 0 <= j < i ==> !IsUS(records[j])
  }

  /**
   * geocodeLocation after the fetch: a failed HTTP reply throws
   * SearchUnavailable; otherwise the first U.S. record gives the Location,
   * and when there is none NoUSMatch is thrown.
   */
  function Geocode(reply: GeoReply): (r: Result<Location, GeocodeError>)
    ensures !reply.ok ==> r == Err(SearchUnavailable)
    ensures reply.ok ==> (r.Err? <==> forall j :: 0 <= j < |reply.records| ==> !IsUS(reply.records[j]))
    ensures reply.ok && r.Err? ==> r.error == NoUSMatch
    ensures forall i :: reply.ok && FirstUSAt(reply.records, i) ==> r == Ok(LocationOf(reply.records[i]))
  {
    if !reply.ok then Err(SearchUnavailable)
    else match FindUS(reply.records)
      case None => Err(NoUSMatch)
      case Some(i) =>
        assert FirstUSAt(reply.records, i);
        Ok(LocationOf(reply.records[i]))
  }

  /** Records in front of the first U.S. one (foreign or address-less) have no effect on the result. */
  lemma {:induction false} GeocodeSkipsNonUS(ok: bool, front: seq<GeoRecord>, rest: seq<GeoRecord>)
    requires forall j :: 0 <= j < |front| ==> !IsUS(front[j])
    ensures Geocode(GeoReply(ok, front + rest)) == Geocode(GeoReply(ok, rest))
  {
    var all := front + rest;
    if ok {
      match FindUS(rest)
      case None =>
        forall j | 0 <= j < |all| ensures !IsUS(all[j]) {
          if j >= |front| { assert all[j] == rest[j - |front|]; }
        }
      case Some(i) =>
        assert FirstUSAt(rest, i);
        assert all[|front| + i] == rest[i];
        assert FirstUSAt(all, |front| + i) by {
          forall j | 0 <= j < |front| + i ensures !IsUS(all[j]) {
            if j >= |front| { assert all[j] == rest[j - |front|]; }
          }
        }
    }
  }
}
