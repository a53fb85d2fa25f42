/**
 * The hospital registry (server/controllers/hospitalController.js): a fixed
 * list of hospitals searched by radius or id, and an append-only log of
 * preparation notifications.
 */
module HospitalController {
  import opened Common
  import EtaCalculator

  datatype Hospital = Hospital(
    id: string,
    name: string,
    location: Coord,
    availableBeds: nat,
    emergencyCapacity: string,
    specialties: seq<string>)

  /** One `prepareHospital` notification; `emergencyId` is stored as the request gave it, possibly absent. */
  datatype Notification = Notification(
    id: string,
    hospitalId: string,
    emergencyId: Option<string>,
    patientInfo: map<string, string>,
    eta: string,
    timestamp: string,
    status: string)

  /** A `findNearby` entry; `distanceSquared` stands for the square of `distanceKm`. */
  datatype NearbyHospital = NearbyHospital(hospital: Hospital, distanceSquared: real)

  datatype NearbyList = NearbyList(count: nat, hospitals: seq<NearbyHospital>)

  /** The `prepareHospital` body. */
  datatype Prepared = Prepared(hospital: Hospital, notification: Notification, message: string)

  datatype NotificationList = NotificationList(count: nat, notifications: seq<Notification>)

  const DefaultRadiusKm: real := 10.0

  const SeedHospitals: seq<Hospital> := [
    Hospital("HOSP-001", "Apollo Hospital", Coord(17.4326, 78.4071), 15, "HIGH", ["Cardiology", "Neurology", "Trauma"]),
    Hospital("HOSP-002", "Care Hospital", Coord(17.4239, 78.4738), 8, "MEDIUM", ["Trauma", "Orthopedics"]),
    Hospital("HOSP-003", "Gandhi Hospital", Coord(17.4484, 78.4954), 20, "HIGH", ["General", "Emergency"])
  ]

  /** `distance <= radius` stated on the square of the (non-negative) distance. */
  predicate WithinRadius(d2: real, radius: real)
  {
    radius >= 0.0 && d2 <= radius * radius
  }

  /** The test `findNearby` applies to each hospital. */
  function Within(origin: Coord, radius: real): Hospital -> bool
  {
    (h: Hospital) => WithinRadius(Dist2(origin, h.location), radius)
  }

  /** The notifications addressed to one hospital. */
  function AddressedTo(id: string): Notification -> bool
  {
    (n: Notification) => n.hospitalId == id
  }

  function HospitalsOf(s: seq<NearbyHospital>): (r: seq<Hospital>)
    ensures |r| == |s| && forall i :: 0 <= i < |s| ==> r[i] == s[i].hospital
  {
    seq(|s|, i requires 0 <= i < |s| => s[i].hospital)
  }

  /** `hospitals.find(h => h.id === id)` lands on position k. */
  predicate FirstWithId(s: seq<Hospital>, k: int)
    requires 0 <= k < |s|
  {
    forall j :: 0 <= j < k ==> s[j].id != s[k].id
  }

  /** For a distance d >= 0 whose square is d2, the squared test is exactly `d <= radius`. */
  lemma WithinRadiusIsDistance(d: real, d2: real, radius: real)
    requires d >= 0.0 && d * d == d2
    ensures WithinRadius(d2, radius) <==> d <= radius
  {
    if radius >= 0.0 {
      EtaCalculator.SquareMonotone(d, radius);
      EtaCalculator.SquareMonotone(radius, d);
    }
  }

  /** A larger radius admits every distance a smaller one admits. */
  lemma WithinRadiusMonotone(d2: real, r1: real, r2: real)
    requires r1 <= r2 && WithinRadius(d2, r1)
    ensures WithinRadius(d2, r2)
  {
    EtaCalculator.SquareMonotone(r1, r2);
  }

  class HospitalRegistry {
    const hospitals: seq<Hospital>
    var notifications: seq<Notification>

    /** Every notification names a hospital of the registry: only `prepareHospital` appends, and only for a known id. */
    ghost predicate Valid()
      reads this
    {
      forall n :: 0 <= n < |notifications| ==>
        exists k :: 0 <= k < |hospitals| && hospitals[k].id == notifications[n].hospitalId
    }

    /** The mock hospitals the server starts with, and no notifications. */
    constructor ()
      ensures hospitals == SeedHospitals && notifications == [] && Valid()
    {
      hospitals := SeedHospitals;
      notifications := [];
    }

    /**
     * `findNearby`: rejects an absent or empty query coordinate; otherwise the
     * hospitals within `radius` km (default 10), in registry order, each with
     * its squared distance.
     */
    function FindNearby(lat: Option<real>, lng: Option<real>, radius: Option<real>): (r: Response<NearbyList>)
      ensures r.BadRequest? <==> lat.None? || lng.None?
      ensures r.BadRequest? ==> r.error == "lat and lng are required"
      ensures lat.Some? && lng.Some? ==> r.Ok?
      ensures r.Ok? ==>
        var origin := Coord(lat.value, lng.value);
        var rad := if radius.None? then DefaultRadiusKm else radius.value;
        r.value.count == |r.value.hospitals| &&
        HospitalsOf(r.value.hospitals) == Filter(hospitals, Within(origin, rad)) &&
        forall i :: 0 <= i < |r.value.hospitals| ==>
          r.value.hospitals[i].distanceSquared == Dist2(origin, r.value.hospitals[i].hospital.location)
    {
      if lat.None? || lng.None? then BadRequest("lat and lng are required")
      else
        var origin := Coord(lat.value, lng.value);
        var rad := if radius.None? then DefaultRadiusKm else radius.value;
        var nearby := Filter(hospitals, Within(origin, rad));
        var entries := seq(|nearby|, i requires 0 <= i < |nearby| => NearbyHospital(nearby[i], Dist2(origin, nearby[i].location)));
        assert HospitalsOf(entries) == nearby;
        Ok(NearbyList(|entries|, entries))
    }

    /**
     * A registry hospital is in the `findNearby` answer exactly when its
     * distance from the query point is at most the radius.
     */
    lemma FindNearbyExact(lat: real, lng: real, radius: Option<real>, k: nat, d: real)
      requires k < |hospitals|
      requires d >= 0.0 && d * d == Dist2(Coord(lat, lng), hospitals[k].location)
      ensures var rad := if radius.None? then DefaultRadiusKm else radius.value;
        hospitals[k] in HospitalsOf(FindNearby(Some(lat), Some(lng), radius).value.hospitals) <==> d <= rad
    {
      var origin := Coord(lat, lng);
      var rad := if radius.None? then DefaultRadiusKm else radius.value;
      var found := HospitalsOf(FindNearby(Some(lat), Some(lng), radius).value.hospitals);
      assert found == Filter(hospitals, Within(origin, rad));
      WithinRadiusIsDistance(d, Dist2(origin, hospitals[k].location), rad);
      if hospitals[k] in found {
        var j :| 0 <= j < |found| && found[j] == hospitals[k];
        assert Within(origin, rad)(found[j]);
      }
    }

    /** A larger radius never drops a hospital from the answer. */
    lemma FindNearbyMonotone(lat: real, lng: real, r1: real, r2: real, h: Hospital)
      requires r1 <= r2
      requires h in HospitalsOf(FindNearby(Some(lat), Some(lng), Some(r1)).value.hospitals)
      ensures h in HospitalsOf(FindNearby(Some(lat), Some(lng), Some(r2)).value.hospitals)
    {
      var origin := Coord(lat, lng);
      var small := Filter(hospitals, Within(origin, r1));
      var j :| 0 <= j < |small| && small[j] == h;
      assert h in hospitals && Within(origin, r1)(h);
      WithinRadiusMonotone(Dist2(origin, h.location), r1, r2);
      var k :| 0 <= k < |hospitals| && hospitals[k] == h;
      assert Within(origin, r2)(hospitals[k]);
    }

    /** `getHospital`: the first hospital with the id, or 404. */
    function GetHospital(id: string): (r: Response<Hospital>)
      ensures r.Ok? || r == NotFound("Hospital not found")
      ensures r.NotFound? <==> forall k :: 0 <= k < |hospitals| ==> hospitals[k].id != id
      ensures r.Ok? ==> exists k :: 0 <= k < |hospitals| && hospitals[k] == r.value && r.value.id == id && FirstWithId(hospitals, k)
    {
      match FindFirst(hospitals, (h: Hospital) => h.id == id)
      case None => NotFound("Hospital not found")
      case Some(k) => Ok(hospitals[k])
    }

    /** `getNotifications`: the notifications addressed to `id`, in the order they were sent. */
    function GetNotifications(id: string): (r: NotificationList)
      reads this
      ensures r.count == |r.notifications| && r.notifications == Filter(notifications, AddressedTo(id))
      ensures forall j :: 0 <= j < |r.notifications| ==> r.notifications[j] in notifications && r.notifications[j].hospitalId == id
      ensures forall j :: 0 <= j < |notifications| && notifications[j].hospitalId == id ==> notifications[j] in r.notifications
    {
      var mine := Filter(notifications, AddressedTo(id));
      assert forall j :: 0 <= j < |mine| ==> AddressedTo(id)(mine[j]);
      NotificationList(|mine|, mine)
    }

    /** Under the registry invariant, an id no hospital has gets an empty list, not an error. */
    lemma UnknownHospitalHasNoNotifications(id: string)
      requires Valid()
      requires forall k :: 0 <= k < |hospitals| ==> hospitals[k].id != id
      ensures GetNotifications(id).notifications == []
    {
      forall j | 0 <= j < |notifications|
        ensures !AddressedTo(id)(notifications[j])
      {
        var k :| 0 <= k < |hospitals| && hospitals[k].id == notifications[j].hospitalId;
      }
      FilterNone(notifications, AddressedTo(id));
    }

    /**
     * `prepareHospital`: 404 for an unknown hospital; otherwise exactly one
     * SENT notification for that hospital is appended, with `eta` defaulting
     * to "Unknown" and `patientInfo` to `{}`.
     */
    method PrepareHospital(
      id: string, emergencyId: Option<string>, patientInfo: Option<map<string, string>>, eta: Option<string>,
      notificationId: string, timestamp: string)
      returns (r: Response<Prepared>)
      modifies this
      requires Valid()
      ensures Valid()
      ensures GetHospital(id).NotFound? ==> r == NotFound("Hospital not found") && notifications == old(notifications)
      ensures GetHospital(id).Ok? ==>
        var n := Notification(notificationId, id, emergencyId,
          if patientInfo.None? then map[] else patientInfo.value,
          if FalsyString(eta) then "Unknown" else eta.value,
          timestamp, "SENT");
        notifications == old(notifications) + [n] &&
        r == Ok(Prepared(GetHospital(id).value, n, GetHospital(id).value.name + " has been alerted and is preparing"))
    {
      var found := GetHospital(id);
      if found.NotFound? {
        return NotFound("Hospital not found");
      }
      var hospital := found.value;
      var n := Notification(notificationId, id, emergencyId,
        if patientInfo.None? then map[] else patientInfo.value,
        if FalsyString(eta) then "Unknown" else eta.value,
        timestamp, "SENT");
      notifications := notifications + [n];
      r := Ok(Prepared(hospital, n, hospital.name + " has been alerted and is preparing"));
    }
  }

  /**
   * Appending one notification adds it to the end of its own hospital's list
   * and leaves every other hospital's list as it was.
   */
  lemma {:induction false} NotificationsAfterAppend(ns: seq<Notification>, n: Notification, id: string)
    ensures Filter(ns + [n], AddressedTo(id)) ==
      Filter(ns, AddressedTo(id)) + (if n.hospitalId == id then [n] else [])
  {
    FilterAppend(ns, n, AddressedTo(id));
  }
}
