/**
 * The ambulance registry (server/controllers/ambulanceController.js): lookup
 * by id, location updates, the straight-line route stub and the search for
 * the nearest available ambulance.
 */
module AmbulanceController {
  import opened Common
  import EtaCalculator

  datatype Ambulance = Ambulance(
    id: string,
    location: Coord,
    status: string,
    driver: string,
    vehicleNumber: string,
    lastUpdate: Option<string>)

  /** The `getRoute` body; `distanceSquared` stands for the square of `distanceKm`. */
  datatype RouteInfo = RouteInfo(
    ambulanceId: string,
    currentLocation: Coord,
    destination: Coord,
    distanceSquared: real,
    eta: string,
    route: seq<Coord>)

  /** The `findNearest` body; `distanceSquared` stands for the square of `distanceKm`. */
  datatype Nearest = Nearest(ambulance: Ambulance, distanceSquared: real, eta: string)

  const SeedAmbulances: seq<Ambulance> := [
    Ambulance("AMB-001", Coord(17.385, 78.4867), "AVAILABLE", "Rajesh Kumar", "TS-09-AB-1234", None),
    Ambulance("AMB-002", Coord(17.44, 78.35), "AVAILABLE", "Priya Sharma", "TS-09-CD-5678", None)
  ]

  predicate IsAvailable(a: Ambulance)
  {
    a.status == "AVAILABLE"
  }

  /** `ambulances.find(a => a.id === id)` lands on position k. */
  predicate FirstWithId(s: seq<Ambulance>, k: int)
    requires 0 <= k < |s|
  {
    forall j :: 0 <= j < k ==> s[j].id != s[k].id
  }

  /** The three points of the route stub: start, coordinate-wise midpoint, destination. */
  function RouteStub(from: Coord, to: Coord): (route: seq<Coord>)
    ensures |route| == 3 && route[0] == from && route[2] == to
    ensures 2.0 * route[1].lat == from.lat + to.lat && 2.0 * route[1].lng == from.lng + to.lng
  {
    [from, Coord((from.lat + to.lat) / 2.0, (from.lng + to.lng) / 2.0), to]
  }

  class AmbulanceRegistry {
    var ambulances: seq<Ambulance>

    /** The mock registry the server starts with. */
    constructor ()
      ensures ambulances == SeedAmbulances
    {
      ambulances := SeedAmbulances;
    }

    /** `getAmbulance`: the first ambulance with the id, or 404. */
    function GetAmbulance(id: string): (r: Response<Ambulance>)
      reads this
      ensures r.Ok? || r == NotFound("Ambulance not found")
      ensures r.NotFound? <==> forall k :: 0 <= k < |ambulances| ==> ambulances[k].id != id
      ensures r.Ok? ==> exists k :: 0 <= k < |ambulances| && ambulances[k] == r.value && r.value.id == id && FirstWithId(ambulances, k)
    {
      match FindFirst(ambulances, (a: Ambulance) => a.id == id)
      case None => NotFound("Ambulance not found")
      case Some(k) => Ok(ambulances[k])
    }

    /**
     * `updateLocation`: a missing or zero coordinate is rejected before the
     * lookup; an unknown id is 404; otherwise only that ambulance's location
     * and lastUpdate change.
     */
    method UpdateLocation(id: string, lat: Option<real>, lng: Option<real>, now: string) returns (r: Response<Ambulance>)
      modifies this
      ensures |ambulances| == |old(ambulances)|
      ensures FalsyNumber(lat) || FalsyNumber(lng) ==>
        r == BadRequest("lat and lng are required") && ambulances == old(ambulances)
      ensures !FalsyNumber(lat) && !FalsyNumber(lng) && (forall k :: 0 <= k < |old(ambulances)| ==> old(ambulances)[k].id != id) ==>
        r == NotFound("Ambulance not found") && ambulances == old(ambulances)
      ensures forall k :: (!FalsyNumber(lat) && !FalsyNumber(lng) && 0 <= k < |old(ambulances)| &&
          old(ambulances)[k].id == id && FirstWithId(old(ambulances), k)) ==>
        ambulances == old(ambulances)[k := old(ambulances)[k].(location := Coord(lat.value, lng.value), lastUpdate := Some(now))] &&
        r == Ok(ambulances[k])
    {
      if FalsyNumber(lat) || FalsyNumber(lng) {
        return BadRequest("lat and lng are required");
      }
      var found := FindFirst(ambulances, (a: Ambulance) => a.id == id);
      if found.None? {
        return NotFound("Ambulance not found");
      }
      var k := found.value;
      var updated := ambulances[k].(location := Coord(lat.value, lng.value), lastUpdate := Some(now));
      ambulances := ambulances[k := updated];
      r := Ok(updated);
    }

    /**
     * `getRoute`: for a known ambulance, the squared distance to the
     * destination, the ETA at the default 40 km/h, and the three-point stub.
     */
    function GetRoute(id: string, destination: Coord): (r: Response<RouteInfo>)
      reads this
      ensures r.Ok? || r == NotFound("Ambulance not found")
      ensures r.NotFound? <==> GetAmbulance(id).NotFound?
      ensures r.Ok? ==>
        var a := GetAmbulance(id).value;
        r.value.ambulanceId == id && r.value.currentLocation == a.location && r.value.destination == destination &&
        r.value.distanceSquared == Dist2(a.location, destination) &&
        r.value.route == [a.location, Coord((a.location.lat + destination.lat) / 2.0, (a.location.lng + destination.lng) / 2.0), destination] &&
        (forall d: real :: d >= 0.0 && d * d == r.value.distanceSquared ==>
          r.value.eta == EtaCalculator.CalculateEta(Some(d), None))
    {
      match FindFirst(ambulances, (a: Ambulance) => a.id == id)
      case None => NotFound("Ambulance not found")
      case Some(k) =>
        var a := ambulances[k];
        var d2 := Dist2(a.location, destination);
        EtaAgrees(d2);
        Ok(RouteInfo(id, a.location, destination, d2, EtaCalculator.EtaFromSquaredDistance(d2), RouteStub(a.location, destination)))
    }

    /**
     * `findNearest`: rejects a missing query coordinate; 404 when no ambulance
     * is AVAILABLE; otherwise scans the available ones in registry order and
     * keeps the first with the strictly smallest distance.
     */
    method FindNearest(lat: Option<real>, lng: Option<real>) returns (r: Response<Nearest>)
      ensures lat.None? || lng.None? ==> r == BadRequest("lat and lng are required")
      ensures lat.Some? && lng.Some? && (forall k :: 0 <= k < |ambulances| ==> !IsAvailable(ambulances[k])) ==>
        r == NotFound("No ambulances available")
      ensures r.Ok? ==>
        var origin := Coord(lat.value, lng.value);
        var available := Filter(ambulances, IsAvailable);
        exists k :: 0 <= k < |available| && available[k] == r.value.ambulance &&
          IsAvailable(r.value.ambulance) &&
          r.value.distanceSquared == Dist2(origin, r.value.ambulance.location) &&
          (forall j :: 0 <= j < |available| ==> r.value.distanceSquared <= Dist2(origin, available[j].location)) &&
          (forall j :: 0 <= j < k ==> r.value.distanceSquared < Dist2(origin, available[j].location))
      ensures lat.Some? && lng.Some? && (exists k :: 0 <= k < |ambulances| && IsAvailable(ambulances[k])) ==> r.Ok?
      ensures r.Ok? ==> forall d: real :: d >= 0.0 && d * d == r.value.distanceSquared ==>
        r.value.eta == EtaCalculator.CalculateEta(Some(d), None)
    {
      if lat.None? || lng.None? {
        return BadRequest("lat and lng are required");
      }
      var origin := Coord(lat.value, lng.value);
      var available := Filter(ambulances, IsAvailable);
      if |available| == 0 {
        return NotFound("No ambulances available");
      }
      var dists := seq(|available|, j requires 0 <= j < |available| => Dist2(origin, available[j].location));
      var best, minDistance := NearestIndex(dists);
      var eta := EtaCalculator.EtaFromSquaredDistance(minDistance);
      EtaAgrees(minDistance);
      r := Ok(Nearest(available[best], minDistance, eta));
      assert forall j :: 0 <= j < |available| ==> dists[j] == Dist2(origin, available[j].location);
      assert available[best] in ambulances && IsAvailable(available[best]);
      assert r.value.distanceSquared == Dist2(origin, r.value.ambulance.location);
      assert forall j :: 0 <= j < |available| ==> r.value.distanceSquared <= Dist2(origin, available[j].location);
      assert forall j :: 0 <= j < best ==> r.value.distanceSquared < Dist2(origin, available[j].location);
      assert available == Filter(ambulances, IsAvailable);
    }
  }

  /**
   * The scan of `findNearest` over the available ambulances' distances:
   * `minDistance` starts at Infinity (None) and a distance replaces it only
   * when strictly smaller, so the earliest of equal minima wins.
   */
  method NearestIndex(dists: seq<real>) returns (best: nat, minDistance: real)
    requires |dists| > 0
    ensures best < |dists| && minDistance == dists[best]
    ensures forall j :: 0 <= j < |dists| ==> minDistance <= dists[j]
    ensures forall j :: 0 <= j < best ==> minDistance < dists[j]
  {
    var min: Option<real> := None;
    best := 0;
    for i := 0 to |dists|
      invariant min.None? <==> i == 0
      invariant min.Some? ==>
        best < i && min.value == dists[best] &&
        (forall j :: 0 <= j < i ==> min.value <= dists[j]) &&
        (forall j :: 0 <= j < best ==> min.value < dists[j])
    {
      if min.None? || dists[i] < min.value {
        min := Some(dists[i]);
        best := i;
      }
    }
    minDistance := min.value;
  }

  /** The label computed from a squared distance is the one `calculateETA` gives for its root. */
  lemma EtaAgrees(d2: real)
    requires d2 >= 0.0
    ensures forall d: real :: d >= 0.0 && d * d == d2 ==>
      EtaCalculator.EtaFromSquaredDistance(d2) == EtaCalculator.CalculateEta(Some(d), None)
  {
    forall d: real | d >= 0.0 && d * d == d2
      ensures EtaCalculator.EtaFromSquaredDistance(d2) == EtaCalculator.CalculateEta(Some(d), None)
    {
      EtaCalculator.EtaFromSquaredDistanceAgrees(d);
    }
  }
}
