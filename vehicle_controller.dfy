/**
 * Vehicle rescue scores (server/controllers/vehicleController.js): drivers'
 * actions are logged against a vehicle record created on first use, each
 * action adds its points and re-derives the tier, scores can be read back and
 * ranked, and alerts to nearby vehicles are recorded.
 */
module VehicleController {
  import opened Common
  import opened RescueScore
  import StableSort

  datatype ActionRecord = ActionRecord(
    id: string,
    vehicleId: string,
    emergencyId: Option<string>,
    action: string,
    points: int,
    timestamp: string)

  datatype Vehicle = Vehicle(id: string, totalScore: int, level: Level, actions: seq<ActionRecord>)

  datatype Alert = Alert(
    id: string,
    emergencyId: string,
    location: Coord,
    radius: real,
    timestamp: string,
    vehiclesNotified: nat)

  /** The `logAction` body. */
  datatype Logged = Logged(vehicle: Vehicle, action: ActionRecord, message: string)

  /** The `getScore` body: the record, or the zero stub with its message. */
  datatype Score = Score(vehicle: Vehicle, message: Option<string>)

  datatype LeaderboardEntry = LeaderboardEntry(rank: nat, vehicleId: string, score: int, level: Level, actionsCount: nat)

  datatype Leaderboard = Leaderboard(count: nat, leaderboard: seq<LeaderboardEntry>)

  /** The `sendAlert` body. */
  datatype AlertSent = AlertSent(alert: Alert, message: string)

  const DefaultLimit: int := 10
  const DefaultAlertRadius: real := 1.0

  /** The record a first action creates: no points, tier NEW, no actions. */
  function NewVehicle(id: string): (v: Vehicle)
  {
    Vehicle(id, 0, New, [])
  }

  /** The test of `vehicles.find(v => v.id === id)`. */
  function HasId(id: string): Vehicle -> bool
  {
    (v: Vehicle) => v.id == id
  }

  /** The sum of a list of action records' points. */
  function SumPoints(rs: seq<ActionRecord>): int
    decreases |rs|
  {
    if |rs| == 0 then 0 else SumPoints(rs[..|rs| - 1]) + rs[|rs| - 1].points
  }

  /** A record whose score is its actions' points, whose tier follows from that score, and whose actions are its own. */
  ghost predicate Consistent(v: Vehicle)
  {
    v.totalScore == SumPoints(v.actions) &&
    v.level == GetRescueLevel(v.totalScore) &&
    forall i :: 0 <= i < |v.actions| ==> v.actions[i].vehicleId == v.id
  }

  /** The registry's invariant: one record per vehicle id, each consistent. */
  ghost predicate WellFormed(vs: seq<Vehicle>)
  {
    (forall i, j :: 0 <= i < j < |vs| ==> vs[i].id != vs[j].id) &&
    (forall i :: 0 <= i < |vs| ==> Consistent(vs[i]))
  }

  /** One action applied to a record: its points are added, the tier re-derived, the record appended. */
  function Credit(v: Vehicle, rec: ActionRecord): (w: Vehicle)
    ensures w.id == v.id && w.totalScore == v.totalScore + rec.points
    ensures w.level == GetRescueLevel(w.totalScore) && w.actions == v.actions + [rec]
  {
    var total := v.totalScore + rec.points;
    v.(totalScore := total, level := GetRescueLevel(total), actions := v.actions + [rec])
  }

  /**
   * The registry after logging `rec`: the first record with its vehicle id is
   * credited, or, when there is none, a new record is appended and credited.
   */
  function LogInto(vs: seq<Vehicle>, rec: ActionRecord): (ws: seq<Vehicle>)
    ensures |ws| == |vs| || |ws| == |vs| + 1
    ensures exists k :: 0 <= k < |ws| && ws[k].id == rec.vehicleId
  {
    match FindFirst(vs, HasId(rec.vehicleId))
    case None =>
      var ws := vs + [Credit(NewVehicle(rec.vehicleId), rec)];
      assert ws[|vs|].id == rec.vehicleId;
      ws
    case Some(k) =>
      var ws := vs[k := Credit(vs[k], rec)];
      assert ws[k].id == rec.vehicleId;
      ws
  }

  /** What `getScore` reports for an id: the first record with it, or the zero stub. */
  function ScoreOf(vs: seq<Vehicle>, id: string): (v: Vehicle)
    ensures v.id == id
  {
    match FindFirst(vs, HasId(id))
    case None => NewVehicle(id)
    case Some(k) => vs[k]
  }

  /** Crediting keeps a record consistent. */
  lemma CreditConsistent(v: Vehicle, rec: ActionRecord)
    requires Consistent(v) && rec.vehicleId == v.id
    ensures Consistent(Credit(v, rec))
  {
    var w := Credit(v, rec);
    assert w.actions[..|w.actions| - 1] == v.actions;
  }

  /**
   * Logging creates a record only for an id with none, at the end; the
   * registry otherwise keeps its length and every other record unchanged.
   */
  lemma LogIntoShape(vs: seq<Vehicle>, rec: ActionRecord)
    ensures var ws := LogInto(vs, rec);
      (|ws| == |vs| + 1 <==> forall k :: 0 <= k < |vs| ==> vs[k].id != rec.vehicleId) &&
      (|ws| == |vs| || |ws| == |vs| + 1) &&
      (forall k :: 0 <= k < |vs| && vs[k].id != rec.vehicleId ==> ws[k] == vs[k]) &&
      (|ws| == |vs| + 1 ==> ws[|vs|] == Credit(NewVehicle(rec.vehicleId), rec))
  {
    var found := FindFirst(vs, HasId(rec.vehicleId));
    assert found.Some? ==> HasId(rec.vehicleId)(vs[found.value]);
    assert found.None? ==> forall k :: 0 <= k < |vs| ==> !HasId(rec.vehicleId)(vs[k]);
  }

  /** Logging keeps the registry well formed: ids stay unique and every record consistent. */
  lemma LogPreservesWellFormed(vs: seq<Vehicle>, rec: ActionRecord)
    requires WellFormed(vs)
    ensures WellFormed(LogInto(vs, rec))
  {
    match FindFirst(vs, HasId(rec.vehicleId))
    case None =>
      assert forall k :: 0 <= k < |vs| ==> !HasId(rec.vehicleId)(vs[k]);
      LogNewPreservesWellFormed(vs, rec);
    case Some(k) =>
      assert HasId(rec.vehicleId)(vs[k]);
      LogKnownPreservesWellFormed(vs, rec, k);
  }

  /** A first action for an id appends a consistent record with an id no other record has. */
  lemma LogNewPreservesWellFormed(vs: seq<Vehicle>, rec: ActionRecord)
    requires WellFormed(vs)
    requires forall k :: 0 <= k < |vs| ==> vs[k].id != rec.vehicleId
    ensures WellFormed(vs + [Credit(NewVehicle(rec.vehicleId), rec)])
  {
    var w := Credit(NewVehicle(rec.vehicleId), rec);
    CreditConsistent(NewVehicle(rec.vehicleId), rec);
    var ws := vs + [w];
    forall i, j | 0 <= i < j < |ws|
      ensures ws[i].id != ws[j].id
    {
      assert ws[i] == vs[i];
    }
    forall i | 0 <= i < |ws|
      ensures Consistent(ws[i])
    {
      if i < |vs| {
        assert ws[i] == vs[i];
      }
    }
  }

  /** A later action credits the record in place, keeping its id. */
  lemma LogKnownPreservesWellFormed(vs: seq<Vehicle>, rec: ActionRecord, k: nat)
    requires WellFormed(vs)
    requires k < |vs| && vs[k].id == rec.vehicleId
    ensures WellFormed(vs[k := Credit(vs[k], rec)])
  {
    CreditConsistent(vs[k], rec);
  }

  /**
   * After logging, the score reported for the vehicle is the earlier one
   * (0 for an unseen id) plus the action's points, its tier follows from that,
   * and its actions gain exactly the new record; every other id reports as before.
   */
  lemma LogAddsPoints(vs: seq<Vehicle>, rec: ActionRecord, other: string)
    ensures var before := ScoreOf(vs, rec.vehicleId);
      var after := ScoreOf(LogInto(vs, rec), rec.vehicleId);
      after.totalScore == before.totalScore + rec.points &&
      after.level == GetRescueLevel(after.totalScore) &&
      after.actions == before.actions + [rec]
    ensures other != rec.vehicleId ==> ScoreOf(LogInto(vs, rec), other) == ScoreOf(vs, other)
  {
    var ws := LogInto(vs, rec);
    var p := HasId(rec.vehicleId);
    var q := HasId(other);
    match FindFirst(vs, p)
    case None =>
      assert forall j :: 0 <= j < |vs| ==> !p(vs[j]);
      assert forall j :: 0 <= j < |vs| ==> ws[j] == vs[j];
      FindFirstIs(ws, p, |vs|);
      if other != rec.vehicleId {
        assert !q(ws[|vs|]);
        match FindFirst(vs, q)
        case None =>
          assert forall j :: 0 <= j < |ws| ==> !q(ws[j]);
        case Some(m) =>
          FindFirstIs(ws, q, m);
      }
    case Some(k) =>
      assert forall j :: 0 <= j < |vs| ==> ws[j].id == vs[j].id;
      FindFirstIs(ws, p, k);
      if other != rec.vehicleId {
        match FindFirst(vs, q)
        case None =>
          assert forall j :: 0 <= j < |ws| ==> !q(ws[j]);
        case Some(m) =>
          assert m != k;
          FindFirstIs(ws, q, m);
      }
  }

  /**
   * `logAction`'s steps (find the record, push a fresh one if there is none,
   * then credit it in place) produce `LogInto`, and the credited record is
   * the one reported for the id afterwards.
   */
  lemma LogSteps(vs: seq<Vehicle>, rec: ActionRecord)
    ensures var found := FindFirst(vs, HasId(rec.vehicleId));
      var grown := if found.None? then vs + [NewVehicle(rec.vehicleId)] else vs;
      var k := if found.None? then |vs| else found.value;
      k < |grown| &&
      LogInto(vs, rec) == grown[k := Credit(grown[k], rec)] &&
      ScoreOf(LogInto(vs, rec), rec.vehicleId) == Credit(grown[k], rec)
  {
    var p := HasId(rec.vehicleId);
    var ws := LogInto(vs, rec);
    match FindFirst(vs, p)
    case None =>
      assert ws == (vs + [NewVehicle(rec.vehicleId)])[|vs| := Credit(NewVehicle(rec.vehicleId), rec)];
      assert forall j :: 0 <= j < |vs| ==> ws[j] == vs[j] && !p(ws[j]);
      FindFirstIs(ws, p, |vs|);
    case Some(k) =>
      assert forall j :: 0 <= j < k ==> ws[j] == vs[j] && !p(ws[j]);
      FindFirstIs(ws, p, k);
  }

  /** `logAction` is not idempotent: logging the same action twice adds its points twice. */
  lemma LogTwiceAddsTwice(vs: seq<Vehicle>, rec: ActionRecord)
    ensures ScoreOf(LogInto(LogInto(vs, rec), rec), rec.vehicleId).totalScore ==
      ScoreOf(vs, rec.vehicleId).totalScore + 2 * rec.points
  {
    LogAddsPoints(vs, rec, rec.vehicleId);
    LogAddsPoints(LogInto(vs, rec), rec, rec.vehicleId);
  }

  /** The sort key of `(a, b) => b.totalScore - a.totalScore`. */
  function ScoreKey(v: Vehicle): real
  {
    v.totalScore as real
  }

  /** The end `slice(0, limit)` uses: a negative limit counts back from the end. */
  function SliceEnd(limit: int, n: nat): (e: nat)
    ensures e <= n
    ensures limit >= 0 ==> e == if limit < n then limit else n
    ensures limit < 0 ==> e == if n + limit > 0 then n + limit else 0
  {
    if limit >= 0 then (if limit < n then limit else n)
    else if n + limit > 0 then n + limit else 0
  }

  function EntryFor(rank: nat, v: Vehicle): LeaderboardEntry
  {
    LeaderboardEntry(rank, v.id, v.totalScore, v.level, |v.actions|)
  }

  class VehicleRegistry {
    var vehicles: seq<Vehicle>
    var actions: seq<ActionRecord>
    var alerts: seq<Alert>

    ghost predicate Valid()
      reads this
    {
      WellFormed(vehicles)
    }

    constructor ()
      ensures vehicles == [] && actions == [] && alerts == [] && Valid()
    {
      vehicles := [];
      actions := [];
      alerts := [];
    }

    /**
     * `logAction`: 400 without an action, with nothing changed; otherwise the
     * vehicle's record (created on first use) is credited with the action's
     * points and the record is appended to its list and to the global log.
     */
    method LogAction(
      vehicleId: string, action: Option<string>, emergencyId: Option<string>,
      actionId: string, timestamp: string)
      returns (r: Response<Logged>)
      modifies this
      requires Valid()
      ensures Valid()
      ensures alerts == old(alerts)
      ensures FalsyString(action) ==>
        r == BadRequest("action is required") && vehicles == old(vehicles) && actions == old(actions)
      ensures !FalsyString(action) ==>
        var rec := ActionRecord(actionId, vehicleId, emergencyId, action.value, GetScoreForAction(action.value), timestamp);
        vehicles == LogInto(old(vehicles), rec) &&
        actions == old(actions) + [rec] &&
        r == Ok(Logged(ScoreOf(vehicles, vehicleId), rec, "Action logged: " + action.value))
    {
      if FalsyString(action) {
        return BadRequest("action is required");
      }
      ghost var before := vehicles;
      var found := FindFirst(vehicles, HasId(vehicleId));
      var k: nat;
      if found.None? {
        vehicles := vehicles + [NewVehicle(vehicleId)];
        k := |vehicles| - 1;
      } else {
        k := found.value;
      }
      var points := GetScoreForAction(action.value);
      var rec := ActionRecord(actionId, vehicleId, emergencyId, action.value, points, timestamp);
      var vehicle := Credit(vehicles[k], rec);
      vehicles := vehicles[k := vehicle];
      actions := actions + [rec];
      LogSteps(before, rec);
      LogPreservesWellFormed(before, rec);
      r := Ok(Logged(vehicle, rec, "Action logged: " + action.value));
    }

    /**
     * `getScore`: the vehicle's record, or, for an id never logged, the zero
     * stub (score 0, NEW, no actions) with its message; no record is created.
     */
    function GetScore(id: string): (r: Score)
      reads this
      ensures r.vehicle == ScoreOf(vehicles, id)
      ensures r.message.Some? <==> forall k :: 0 <= k < |vehicles| ==> vehicles[k].id != id
      ensures r.message.Some? ==> r == Score(Vehicle(id, 0, New, []), Some("No actions recorded yet"))
      ensures r.message.None? ==> exists k :: 0 <= k < |vehicles| && vehicles[k] == r.vehicle && r.vehicle.id == id
    {
      var found := FindFirst(vehicles, HasId(id));
      assert found.None? ==> forall k :: 0 <= k < |vehicles| ==> !HasId(id)(vehicles[k]);
      if found.None? then Score(NewVehicle(id), Some("No actions recorded yet"))
      else Score(vehicles[found.value], None)
    }

    /**
     * `getLeaderboard`: a sorted copy of the registry (stable, by
     * non-increasing score), cut at `limit` (default 10), ranked from 1.
     */
    function GetLeaderboard(limit: Option<int>): (r: Leaderboard)
      reads this
      ensures var n := SliceEnd(if limit.None? then DefaultLimit else limit.value, |vehicles|);
        var sorted := StableSort.SortDesc(vehicles, ScoreKey);
        r.count == |r.leaderboard| == n &&
        forall i :: 0 <= i < n ==> r.leaderboard[i] == EntryFor(i + 1, sorted[i])
    {
      var sorted := StableSort.SortDesc(vehicles, ScoreKey);
      var n := SliceEnd(if limit.None? then DefaultLimit else limit.value, |vehicles|);
      var entries := seq(n, i requires 0 <= i < n => EntryFor(i + 1, sorted[i]));
      Leaderboard(n, entries)
    }

    /**
     * The leaderboard holds at most `limit` entries for a non-negative limit,
     * ranks them 1, 2, ... and lists scores in non-increasing order.
     */
    lemma LeaderboardSorted(limit: Option<int>)
      ensures var l := if limit.None? then DefaultLimit else limit.value;
        var r := GetLeaderboard(limit).leaderboard;
        (l >= 0 ==> |r| <= l) &&
        (forall i :: 0 <= i < |r| ==> r[i].rank == i + 1) &&
        (forall i, j :: 0 <= i < j < |r| ==> r[i].score >= r[j].score)
    {
      var r := GetLeaderboard(limit).leaderboard;
      var sorted := StableSort.SortDesc(vehicles, ScoreKey);
      StableSort.SortSorted(vehicles, ScoreKey);
      forall i, j | 0 <= i < j < |r|
        ensures r[i].score >= r[j].score
      {
        assert ScoreKey(sorted[i]) >= ScoreKey(sorted[j]);
      }
    }

    /** Every leaderboard entry reports a registered vehicle; the registry itself is not changed. */
    lemma LeaderboardFromRegistry(limit: Option<int>, i: nat)
      requires i < |GetLeaderboard(limit).leaderboard|
      ensures exists k :: 0 <= k < |vehicles| && EntryFor(i + 1, vehicles[k]) == GetLeaderboard(limit).leaderboard[i]
    {
      var sorted := StableSort.SortDesc(vehicles, ScoreKey);
      StableSort.SortPermutes(vehicles, ScoreKey);
      assert sorted[i] in multiset(vehicles);
      var k :| 0 <= k < |vehicles| && vehicles[k] == sorted[i];
    }

    /** With a limit that covers the registry, every vehicle appears on the leaderboard. */
    lemma LeaderboardComplete(limit: Option<int>, k: nat)
      requires (if limit.None? then DefaultLimit else limit.value) >= |vehicles|
      requires k < |vehicles|
      ensures exists i :: (0 <= i < |GetLeaderboard(limit).leaderboard| &&
        GetLeaderboard(limit).leaderboard[i] == EntryFor(i + 1, vehicles[k]))
    {
      var sorted := StableSort.SortDesc(vehicles, ScoreKey);
      StableSort.SortPermutes(vehicles, ScoreKey);
      assert vehicles[k] in multiset(sorted);
      var i :| 0 <= i < |sorted| && sorted[i] == vehicles[k];
      assert GetLeaderboard(limit).leaderboard[i] == EntryFor(i + 1, sorted[i]);
    }

    /**
     * `sendAlert`: 400 without an emergency id or location; otherwise one
     * alert is recorded (radius defaulting to 1 km) with no vehicle notified.
     */
    method SendAlert(
      emergencyId: Option<string>, location: Option<Coord>, radius: Option<real>,
      alertId: string, timestamp: string)
      returns (r: Response<AlertSent>)
      modifies this
      ensures vehicles == old(vehicles) && actions == old(actions)
      ensures FalsyString(emergencyId) || location.None? ==>
        r == BadRequest("emergencyId and location are required") && alerts == old(alerts)
      ensures !FalsyString(emergencyId) && location.Some? ==>
        var a := Alert(alertId, emergencyId.value, location.value,
          if radius.None? then DefaultAlertRadius else radius.value, timestamp, 0);
        alerts == old(alerts) + [a] && r == Ok(AlertSent(a, "Alert sent to nearby vehicles"))
    {
      if FalsyString(emergencyId) || location.None? {
        return BadRequest("emergencyId and location are required");
      }
      var a := Alert(alertId, emergencyId.value, location.value,
        if radius.None? then DefaultAlertRadius else radius.value, timestamp, 0);
      alerts := alerts + [a];
      r := Ok(AlertSent(a, "Alert sent to nearby vehicles"));
    }
  }
}
