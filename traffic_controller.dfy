/**
 * The traffic-signal and corridor registry (server/controllers/trafficController.js):
 * activating a green corridor turns its signals GREEN and tags them,
 * deactivating turns them RED and clears the tag, and signals can be read back.
 */
module TrafficController {
  import opened Common
  import opened SignalLogic

  /** A signal's `corridorId`: never set, set to `null` by a deactivation, or a corridor's id. */
  datatype CorridorRef = Unset | Cleared | Tagged(id: string)

  datatype TrafficSignal = TrafficSignal(id: string, location: Coord, state: SignalState, corridorId: CorridorRef)

  /** A corridor as the registry keeps it: the generated corridor plus what activation adds. */
  datatype Corridor = Corridor(
    corridorId: string,
    status: CorridorStatus,
    signals: seq<SignalEntry>,
    createdAt: string,
    emergencyId: string,
    activatedAt: string,
    deactivatedAt: Option<string>)

  datatype SignalList = SignalList(count: nat, signals: seq<TrafficSignal>)

  /** `signals.find(s => s.id === id)` lands on position k: no earlier signal has k's id. */
  predicate FirstWithId(s: seq<TrafficSignal>, k: int)
    requires 0 <= k < |s|
  {
    forall j :: 0 <= j < k ==> s[j].id != s[k].id
  }

  /**
   * The registry after a `forEach` over a route that sets `state` and `tag` on
   * `signals.find(s => s.id === id)` for each route id: the first signal
   * carrying a route id is updated; ids with no signal change nothing.
   */
  function SetRoute(s: seq<TrafficSignal>, route: seq<string>, state: SignalState, tag: CorridorRef): (r: seq<TrafficSignal>)
    ensures |r| == |s|
    ensures forall k :: 0 <= k < |s| ==> r[k].id == s[k].id && r[k].location == s[k].location
  {
    seq(|s|, k requires 0 <= k < |s| =>
      if s[k].id in route && FirstWithId(s, k) then s[k].(state := state, corridorId := tag) else s[k])
  }

  /** Every first signal with a route id gets the new state and tag, whatever state or tag it had. */
  lemma SetRouteHits(s: seq<TrafficSignal>, route: seq<string>, state: SignalState, tag: CorridorRef, k: nat)
    requires k < |s| && s[k].id in route && FirstWithId(s, k)
    ensures SetRoute(s, route, state, tag)[k] == s[k].(state := state, corridorId := tag)
  {
  }

  /** A signal whose id is not on the route is left exactly as it was. */
  lemma SetRouteMisses(s: seq<TrafficSignal>, route: seq<string>, state: SignalState, tag: CorridorRef, k: nat)
    requires k < |s| && s[k].id !in route
    ensures SetRoute(s, route, state, tag)[k] == s[k]
  {
  }

  /** One more route id updates the first signal with that id, if any: the loop step of the `forEach`. */
  lemma {:induction false} SetRouteStep(s: seq<TrafficSignal>, route: seq<string>, id: string, state: SignalState, tag: CorridorRef)
    ensures var cur := SetRoute(s, route, state, tag);
      SetRoute(s, route + [id], state, tag) ==
        match FindFirst(cur, (t: TrafficSignal) => t.id == id)
        case None => cur
        case Some(k) => cur[k := cur[k].(state := state, corridorId := tag)]
  {
    var cur := SetRoute(s, route, state, tag);
    var next := SetRoute(s, route + [id], state, tag);
    var found := FindFirst(cur, (t: TrafficSignal) => t.id == id);
    var expected := match found
      case None => cur
      case Some(k) => cur[k := cur[k].(state := state, corridorId := tag)];
    forall m | 0 <= m < |s|
      ensures next[m] == expected[m]
    {
      assert s[m].id in route + [id] <==> s[m].id in route || s[m].id == id;
      if found.Some? && m == found.value {
        assert FirstWithId(s, m);
      }
    }
  }

  /** Deactivating twice over the same route leaves the signals as the first deactivation did. */
  lemma DeactivateIdempotent(s: seq<TrafficSignal>, route: seq<string>)
    ensures SetRoute(SetRoute(s, route, Red, Cleared), route, Red, Cleared) == SetRoute(s, route, Red, Cleared)
  {
    var once := SetRoute(s, route, Red, Cleared);
    assert forall k :: 0 <= k < |s| ==> (FirstWithId(once, k) <==> FirstWithId(s, k));
  }

  /**
   * Activation followed by deactivation over one route is not a restore: every
   * routed signal ends RED with a `null` tag, so one that was GREEN or YELLOW,
   * or tagged by another corridor, has changed.
   */
  lemma ActivateThenDeactivateIsNotRestore(s: seq<TrafficSignal>, route: seq<string>, corridorId: string, k: nat)
    requires k < |s| && s[k].id in route && FirstWithId(s, k)
    ensures var after := SetRoute(SetRoute(s, route, Green, Tagged(corridorId)), route, Red, Cleared);
      after[k].state == Red && after[k].corridorId == Cleared &&
      (s[k].state != Red || s[k].corridorId != Cleared ==> after != s)
  {
    var active := SetRoute(s, route, Green, Tagged(corridorId));
    assert FirstWithId(active, k);
  }

  const SeedSignals: seq<TrafficSignal> := [
    TrafficSignal("SIG-001", Coord(17.385, 78.4867), Red, Unset),
    TrafficSignal("SIG-002", Coord(17.39, 78.49), Green, Unset),
    TrafficSignal("SIG-003", Coord(17.395, 78.495), Red, Unset),
    TrafficSignal("SIG-004", Coord(17.4, 78.5), Yellow, Unset),
    TrafficSignal("SIG-005", Coord(17.405, 78.505), Red, Unset)
  ]

  class TrafficRegistry {
    var signals: seq<TrafficSignal>
    var corridors: seq<Corridor>

    /** The mock registry the server starts with, and no corridors. */
    constructor ()
      ensures signals == SeedSignals && corridors == []
    {
      signals := SeedSignals;
      corridors := [];
    }

    /** The corridor's `forEach`: each entry's first matching signal gets `state` and `tag`. */
    method ApplyToSignals(entries: seq<SignalEntry>, state: SignalState, tag: CorridorRef)
      modifies this
      ensures signals == SetRoute(old(signals), EntryIds(entries), state, tag)
      ensures corridors == old(corridors)
    {
      var i := 0;
      while i < |entries|
        invariant 0 <= i <= |entries|
        invariant signals == SetRoute(old(signals), EntryIds(entries[..i]), state, tag)
        invariant corridors == old(corridors)
      {
        var id := entries[i].signalId;
        var found := FindFirst(signals, (t: TrafficSignal) => t.id == id);
        SetRouteStep(old(signals), EntryIds(entries[..i]), id, state, tag);
        if found.Some? {
          var k := found.value;
          signals := signals[k := signals[k].(state := state, corridorId := tag)];
        }
        assert EntryIds(entries[..i + 1]) == EntryIds(entries[..i]) + [id];
        i := i + 1;
      }
      assert entries[..|entries|] == entries;
    }

    /**
     * `activateGreenCorridor`: rejects a missing emergency id or route array,
     * then an empty route; otherwise turns the route's signals GREEN, tags
     * them with the new corridor and appends the corridor.
     */
    method ActivateGreenCorridor(
      emergencyId: Option<string>, routeSignals: Option<seq<string>>,
      corridorId: string, createdAt: string, activatedAt: string)
      returns (r: Response<Corridor>)
      modifies this
      ensures FalsyString(emergencyId) || routeSignals.None? ==>
        r == BadRequest("emergencyId and routeSignals array are required") &&
        signals == old(signals) && corridors == old(corridors)
      ensures !FalsyString(emergencyId) && routeSignals == Some([]) ==>
        r == BadRequest("No signals found on route") &&
        signals == old(signals) && corridors == old(corridors)
      ensures !FalsyString(emergencyId) && routeSignals.Some? && routeSignals.value != [] ==>
        r.Ok? &&
        r.value.corridorId == corridorId && r.value.status == Active &&
        r.value.emergencyId == emergencyId.value && r.value.deactivatedAt == None &&
        r.value.createdAt == createdAt && r.value.activatedAt == activatedAt &&
        EntryIds(r.value.signals) == routeSignals.value &&
        (forall i :: 0 <= i < |r.value.signals| ==> r.value.signals[i].state == Green && r.value.signals[i].duration == 120) &&
        signals == SetRoute(old(signals), routeSignals.value, Green, Tagged(corridorId)) &&
        corridors == old(corridors) + [r.value]
    {
      if FalsyString(emergencyId) || routeSignals.None? {
        return BadRequest("emergencyId and routeSignals array are required");
      }
      var plan := GenerateGreenCorridor(routeSignals, corridorId, createdAt);
      if plan.status == NoSignalsFound {
        return BadRequest("No signals found on route");
      }
      ApplyToSignals(plan.signals, Green, Tagged(corridorId));
      assert EntryIds(plan.signals) == routeSignals.value;
      var corridor := Corridor(corridorId, Active, plan.signals, createdAt, emergencyId.value, activatedAt, None);
      corridors := corridors + [corridor];
      r := Ok(corridor);
    }

    /** `getSignal`: the first signal with the id, or 404. */
    function GetSignal(signalId: string): (r: Response<TrafficSignal>)
      reads this
      ensures r.Ok? || r == NotFound("Signal not found")
      ensures r.NotFound? <==> forall k :: 0 <= k < |signals| ==> signals[k].id != signalId
      ensures r.Ok? ==> exists k :: 0 <= k < |signals| && signals[k] == r.value && r.value.id == signalId && FirstWithId(signals, k)
    {
      match FindFirst(signals, (t: TrafficSignal) => t.id == signalId)
      case None => NotFound("Signal not found")
      case Some(k) => Ok(signals[k])
    }

    /** `getAllSignals`: the whole registry with its size. */
    function GetAllSignals(): (r: SignalList)
      reads this
      ensures r.count == |r.signals| && r.signals == signals
    {
      SignalList(|signals|, signals)
    }

    /**
     * `deactivateGreenCorridor`: 404 for an unknown corridor; otherwise every
     * signal the corridor names is set RED with a `null` tag (whoever tagged
     * it last), and the corridor is marked INACTIVE with the given time.
     */
    method DeactivateGreenCorridor(corridorId: string, now: string) returns (r: Response<Corridor>)
      modifies this
      ensures (forall c :: 0 <= c < |old(corridors)| ==> old(corridors)[c].corridorId != corridorId) ==>
        r == NotFound("Corridor not found") && signals == old(signals) && corridors == old(corridors)
      ensures forall c :: (0 <= c < |old(corridors)| && old(corridors)[c].corridorId == corridorId &&
          (forall j :: 0 <= j < c ==> old(corridors)[j].corridorId != corridorId)) ==>
        signals == SetRoute(old(signals), EntryIds(old(corridors)[c].signals), Red, Cleared) &&
        corridors == old(corridors)[c := old(corridors)[c].(status := Inactive, deactivatedAt := Some(now))] &&
        r == Ok(corridors[c])
    {
      var found := FindFirst(corridors, (c: Corridor) => c.corridorId == corridorId);
      if found.None? {
        return NotFound("Corridor not found");
      }
      var c := found.value;
      var corridor := corridors[c];
      ApplyToSignals(corridor.signals, Red, Cleared);
      corridor := corridor.(status := Inactive, deactivatedAt := Some(now));
      corridors := corridors[c := corridor];
      r := Ok(corridor);
    }
  }
}
