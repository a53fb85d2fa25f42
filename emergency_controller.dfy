/**
 * The emergency registry (server/controllers/emergencyController.js): a
 * validated append that also broadcasts the new record to every connected
 * client, a lookup by id and the list of ACTIVE emergencies.
 */
module EmergencyController {
  import opened Common

  datatype Emergency = Emergency(
    id: string,
    location: Coord,
    patientInfo: map<string, string>,
    severity: string,
    status: string,
    timestamp: string,
    ambulanceId: Option<string>,
    hospitalId: Option<string>)

  /** The request's `location` object, each coordinate possibly absent. */
  datatype LocationInput = LocationInput(lat: Option<real>, lng: Option<real>)

  datatype EmergencyList = EmergencyList(count: nat, emergencies: seq<Emergency>)

  /** `triggerEmergency` rejects a missing `location` and a missing or zero `lat` or `lng`. */
  predicate MissingLocation(location: Option<LocationInput>)
  {
    location.None? || FalsyNumber(location.value.lat) || FalsyNumber(location.value.lng)
  }

  predicate IsActive(e: Emergency)
  {
    e.status == "ACTIVE"
  }

  /** A record as `triggerEmergency` creates it: ACTIVE, with neither ambulance nor hospital assigned. */
  predicate Fresh(e: Emergency)
  {
    IsActive(e) && e.ambulanceId.None? && e.hospitalId.None?
  }

  /** `emergencies.find(e => e.id === id)` lands on position k. */
  predicate FirstWithId(s: seq<Emergency>, k: int)
    requires 0 <= k < |s|
  {
    forall j :: 0 <= j < k ==> s[j].id != s[k].id
  }

  class EmergencyRegistry {
    var emergencies: seq<Emergency>
    /** The `emergency-update` events sent to all clients, in order. */
    ghost var broadcasts: seq<Emergency>

    /**
     * No handler changes a stored record, so every record is still as it was
     * created, and each one was broadcast once, in the order of creation.
     */
    ghost predicate Valid()
      reads this
    {
      (forall k :: 0 <= k < |emergencies| ==> Fresh(emergencies[k])) &&
      broadcasts == emergencies
    }

    constructor ()
      ensures emergencies == [] && broadcasts == [] && Valid()
    {
      emergencies := [];
      broadcasts := [];
    }

    /**
     * `triggerEmergency`: 400 without a usable location, with nothing stored
     * and nothing sent; otherwise one ACTIVE record is appended and broadcast
     * (the 201 answer), with severity defaulting to MEDIUM and patientInfo
     * to `{}`.
     */
    method TriggerEmergency(
      location: Option<LocationInput>, patientInfo: Option<map<string, string>>, severity: Option<string>,
      id: string, timestamp: string)
      returns (r: Response<Emergency>)
      modifies this
      requires Valid()
      ensures Valid()
      ensures MissingLocation(location) ==>
        r == BadRequest("Location (lat, lng) is required") &&
        emergencies == old(emergencies) && broadcasts == old(broadcasts)
      ensures !MissingLocation(location) ==>
        var e := Emergency(id, Coord(location.value.lat.value, location.value.lng.value),
          if patientInfo.None? then map[] else patientInfo.value,
          if FalsyString(severity) then "MEDIUM" else severity.value,
          "ACTIVE", timestamp, None, None);
        r == Ok(e) && emergencies == old(emergencies) + [e] && broadcasts == old(broadcasts) + [e]
    {
      if MissingLocation(location) {
        return BadRequest("Location (lat, lng) is required");
      }
      var e := Emergency(id, Coord(location.value.lat.value, location.value.lng.value),
        if patientInfo.None? then map[] else patientInfo.value,
        if FalsyString(severity) then "MEDIUM" else severity.value,
        "ACTIVE", timestamp, None, None);
      emergencies := emergencies + [e];
      broadcasts := broadcasts + [e];
      r := Ok(e);
    }

    /** `getEmergency`: the first record with the id, or 404. */
    function GetEmergency(id: string): (r: Response<Emergency>)
      reads this
      ensures r.Ok? || r == NotFound("Emergency not found")
      ensures r.NotFound? <==> forall k :: 0 <= k < |emergencies| ==> emergencies[k].id != id
      ensures r.Ok? ==> exists k :: 0 <= k < |emergencies| && emergencies[k] == r.value && r.value.id == id && FirstWithId(emergencies, k)
    {
      match FindFirst(emergencies, (e: Emergency) => e.id == id)
      case None => NotFound("Emergency not found")
      case Some(k) => Ok(emergencies[k])
    }

    /** `getAllEmergencies`: the ACTIVE records in insertion order. */
    function GetAllEmergencies(): (r: EmergencyList)
      reads this
      ensures r.count == |r.emergencies| && r.emergencies == Filter(emergencies, IsActive)
      ensures forall j :: 0 <= j < |r.emergencies| ==> r.emergencies[j] in emergencies && IsActive(r.emergencies[j])
    {
      var active := Filter(emergencies, IsActive);
      EmergencyList(|active|, active)
    }

    /** Since nothing ever changes a record's status, the ACTIVE list is the whole registry. */
    lemma AllEmergenciesAreActive()
      requires Valid()
      ensures GetAllEmergencies().emergencies == emergencies
    {
      FilterAll(emergencies, IsActive);
    }
  }

  /** A newly triggered emergency is at the end of the ACTIVE list, after all earlier ones. */
  lemma {:induction false} TriggeredIsListed(s: seq<Emergency>, e: Emergency)
    requires IsActive(e)
    ensures Filter(s + [e], IsActive) == Filter(s, IsActive) + [e]
  {
    FilterAppend(s, e, IsActive);
  }
}
