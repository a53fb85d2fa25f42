# RescueRoute server core in Dafny

RescueRoute is an emergency-response backend. An emergency is triggered at a
location and broadcast to every client. The nearest available ambulance is
found, and a nearby hospital is alerted. A green corridor turns the traffic
signals on the route GREEN, and drivers earn rescue points for yielding.

This project models the server's logic:

- three utility modules:
  - the rescue-score rules;
  - the green-corridor helpers;
  - the ETA label;
- five controllers, each owning an in-memory registry:
  - ambulances;
  - hospitals and their notifications;
  - emergencies;
  - traffic signals and corridors;
  - vehicle scores, actions and alerts.

Modules, one per source file:

| module | file | models |
|---|---|---|
| `Common` | `common.dfy` | optional values, the handler answers `Ok` / `BadRequest` (400) / `NotFound` (404), coordinates, JavaScript truthiness, `Math.ceil`, the squared planar distance, and `find` / `filter` / `join` |
| `StableSort` | `stable_sort.dfy` | the stable descending sort behind `prioritizeSignals` and `getLeaderboard`; it is proved a permutation, sorted and stable |
| `RescueScore` | `rescue_score.dfy` | `server/utils/rescueScoreLogic.js` |
| `EtaCalculator` | `eta_calculator.dfy` | `calculateETA` in `server/utils/etaCalculator.js` |
| `SignalLogic` | `signal_logic.dfy` | `server/utils/signalLogic.js` |
| `TrafficController` | `traffic_controller.dfy` | `server/controllers/trafficController.js` |
| `AmbulanceController` | `ambulance_controller.dfy` | `server/controllers/ambulanceController.js` |
| `HospitalController` | `hospital_controller.dfy` | `server/controllers/hospitalController.js` |
| `EmergencyController` | `emergency_controller.dfy` | `server/controllers/emergencyController.js` |
| `VehicleController` | `vehicle_controller.dfy` | `server/controllers/vehicleController.js` |

How the model is built:

- **Registries.** Each controller is a class whose `seq` fields are its
  registry arrays.
  - A handler that changes state is a `method` with `modifies this`. It
    states the whole new state and, where the registry has an invariant,
    keeps `Valid()`.
  - A read-only handler is a function. It `reads this` when it reads a
    mutable registry field; a handler over a `const` registry (the
    hospitals) reads nothing.
  - `findNearest` is a method because the source scans the available
    ambulances in a loop; it changes nothing.
- **Inputs.** Request fields are parameters.
  - A field the client may omit is an `Option`.
  - Generated ids (`Date.now()`) and timestamps (`new Date()`) are
    parameters supplied by the caller.
- **Broadcast.** The Socket.IO broadcast of a new emergency is the ghost
  field `broadcasts`.
- **Distances.** The server compares `sqrt(dlat² + dlng²)` with 111 km per
  degree. The model compares the square (`Dist2`) instead.
  - `HospitalController.WithinRadiusIsDistance` proves the radius test the
    same.
  - `AmbulanceController.EtaAgrees` and
    `EtaCalculator.EtaFromSquaredDistanceAgrees` prove the ETA label the
    same.
- **Truthiness.** JavaScript truthiness is modelled by where the field
  comes from.
  - A number in a JSON body (`updateLocation`, `triggerEmergency`) is falsy
    when absent or `0`.
  - A query-string value (`findNearest`, `findNearby`) is a string, and
    `"0"` is truthy. So only an absent (or empty) coordinate is rejected
    there, modelled as `None`.
- **Lookups.** `find` touches only the first record with an id. The model
  keeps that: `FindFirst`, `FirstWithId`, and `SetRoute`, which updates the
  first signal per route id.

## Model

| member | source | states |
|---|---|---|
| `Common.Ceil` | server/utils/etaCalculator.js:13 | `Math.ceil`: the result is the least integer not below its argument |
| `Common.Dist2` | server/controllers/ambulanceController.js:99-101 | the squared flat-earth distance with 111 km per degree; non-negative and 0 from a point to itself |
| `Common.FindFirst` | server/controllers/ambulanceController.js:28 | `find`: the first position satisfying the test, none before it, or none at all |
| `Common.Filter` | server/controllers/hospitalController.js:44-50 | `filter`: only matching elements of the input, and every matching element kept |
| `Common.FilterAppend` | server/controllers/hospitalController.js:142 | filtering a log after a push gives the old result plus the new record exactly when it matches |
| `Common.FilterConcat` | server/controllers/hospitalController.js:142 | filtering distributes over concatenation |
| `Common.FilterAll` | server/controllers/emergencyController.js:80 | a filter whose test holds everywhere returns the whole list |
| `Common.FilterNone` | server/controllers/hospitalController.js:142 | a filter whose test holds nowhere returns the empty list |
| `Common.NatToString` | server/utils/etaCalculator.js:23 | the decimal rendering of a number in a template literal: digits only, whose value is the number, no leading zero, one digit exactly below 10 |
| `Common.Join` | server/utils/signalLogic.js:73 | `join`: empty for no items, the item itself for one |
| `Common.JoinAppend` | server/utils/signalLogic.js:73 | joining one more item gives the earlier join, the separator and the item, so the items appear in order separated by `sep` |
| `StableSort.Insert` | server/utils/signalLogic.js:46-52 | one insertion step adds exactly one element |
| `StableSort.SortDesc` | server/controllers/vehicleController.js:147-148 | the sort keeps the length of its input |
| `StableSort.InsertSplit` | server/utils/signalLogic.js:46-52 | one insertion step puts the new element after the last element with a key at least its own |
| `StableSort.InsertPermutes` | server/utils/signalLogic.js:46-52 | one insertion step adds exactly the inserted element to the multiset |
| `StableSort.InsertSorted` | server/utils/signalLogic.js:46-52 | one insertion step keeps a non-increasing sequence non-increasing |
| `StableSort.InsertStable` | server/utils/signalLogic.js:46-52 | one insertion step keeps each key's elements in input order |
| `StableSort.SortPermutes` | server/utils/signalLogic.js:46-52 | the sort returns a permutation of its input |
| `StableSort.SortSorted` | server/utils/signalLogic.js:46-52 | the sort returns its input in non-increasing key order |
| `StableSort.SortStable` | server/utils/signalLogic.js:46-52 | the sort is stable: equal keys keep their input order |
| `RescueScore.Rank` | server/utils/rescueScoreLogic.js:115 | a tier's position in the tier list |
| `RescueScore.LevelName` | server/utils/rescueScoreLogic.js:115 | a tier's name is the list entry at its position |
| `RescueScore.ScoreTableContents` | server/utils/rescueScoreLogic.js:7-16 | the points table holds exactly the eight actions, with +10, +7, +3, −15, +5, +20, +15 and −10 |
| `RescueScore.GetScoreForAction` | server/utils/rescueScoreLogic.js:6-19 | the table value (never 0) for the eight listed actions, 0 for any other string |
| `RescueScore.ActionScoreBounds` | server/utils/rescueScoreLogic.js:7-16 | every score lies in [-15, 20]; negative exactly for BLOCKED_AMBULANCE and FALSE_REPORT |
| `RescueScore.Threshold` | server/utils/rescueScoreLogic.js:26-32 | each tier's starting score lies in [0, 100], and only NEW starts at 0 |
| `RescueScore.ThresholdsIncrease` | server/utils/rescueScoreLogic.js:26-32 | each tier starts strictly above the tier below it |
| `RescueScore.GetRescueLevel` | server/utils/rescueScoreLogic.js:26-32 | the highest tier whose threshold (10/30/60/100) the score reaches; below the next tier's threshold |
| `RescueScore.RescueLevelMonotone` | server/utils/rescueScoreLogic.js:26-32 | a higher score never gives a lower tier |
| `RescueScore.RescueLevelBoundaries` | server/utils/rescueScoreLogic.js:26-32 | 10/30/60/100 reach the higher tier, 9/29/59/99 stay below, negatives are NEW |
| `RescueScore.IndexOf` | server/utils/rescueScoreLogic.js:116 | `indexOf`: the first position of the name, or -1 |
| `RescueScore.GetNextLevel` | server/utils/rescueScoreLogic.js:114-118 | the result is always a tier name |
| `RescueScore.GetPreviousLevel` | server/utils/rescueScoreLogic.js:120-124 | the result is a tier name other than PLATINUM |
| `RescueScore.LevelNameIndex` | server/utils/rescueScoreLogic.js:115-116 | a tier name's index is the tier's rank |
| `RescueScore.NextAndPreviousLevel` | server/utils/rescueScoreLogic.js:114-124 | on tier names: successor and predecessor, with PLATINUM mapped to PLATINUM and NEW to NEW |
| `RescueScore.UnknownLevelName` | server/utils/rescueScoreLogic.js:114-124 | a string naming no tier gets NEW from both functions |
| `RescueScore.GetLevelProgress` | server/utils/rescueScoreLogic.js:85-112 | PLATINUM: progress 100, 0 points to next. Below: progress = min((score − tier threshold)/(next threshold − tier threshold)·100, 100) and points to next = next threshold − score > 0; progress ≥ 0 exactly for scores ≥ 0 |
| `RescueScore.ThresholdTable` | server/utils/rescueScoreLogic.js:87-97 | the `thresholds` entry of a tier is where the next tier starts, the entry of the tier before it is where the tier starts, and PLATINUM has none |
| `RescueScore.ProgressNextLevel` | server/utils/rescueScoreLogic.js:107 | the reported next level is the successor tier |
| `RescueScore.BenefitsOf` | server/utils/rescueScoreLogic.js:40-75 | a tier's entry has a one-character badge and at least one perk |
| `RescueScore.BenefitsDistinct` | server/utils/rescueScoreLogic.js:40-75 | different tiers have different badges and different colours |
| `RescueScore.GetLevelBenefits` | server/utils/rescueScoreLogic.js:39-78 | the entry (badge, perks, colour) of a tier name; the NEW entry for any other string |
| `EtaCalculator.MinutesLabel` | server/utils/etaCalculator.js:15-23 | below 1 minute, exactly 1 minute, or the count itself from 2 on, each as an if-and-only-if |
| `EtaCalculator.EtaText` | server/utils/etaCalculator.js:8-23 | "Unknown" and "Less than 1 minute" come only from their own branches; "1 minute" for one minute; n minutes print as the decimal n followed by " minutes"; "Infinity minutes" for the Infinity quotient |
| `EtaCalculator.ClassifyEta` | server/utils/etaCalculator.js:7-24 | "Unknown" exactly when the distance is absent, zero or negative; the Infinity quotient exactly at an explicit speed of 0 |
| `EtaCalculator.CalculateEta` | server/utils/etaCalculator.js:7-24 | the label is "Unknown" exactly when the distance is absent, zero or negative |
| `EtaCalculator.EtaPositive` | server/utils/etaCalculator.js:7-23 | at positive distance and positive speed (absent meaning 40), minutes = ceil(d/speed·60) ≥ 1; "1 minute" for 1, "<n> minutes" from 2; never "Less than 1 minute" |
| `EtaCalculator.EtaMonotoneInDistance` | server/utils/etaCalculator.js:12-13 | at a fixed positive speed, a longer distance never gives fewer minutes |
| `EtaCalculator.SearchLeastRoot` | server/utils/etaCalculator.js:12-13 | the least natural number whose square reaches the target |
| `EtaCalculator.LeastRoot` | server/utils/etaCalculator.js:12-13 | the least natural number whose square reaches the target |
| `EtaCalculator.SquareMonotone` | server/utils/etaCalculator.js:12-13 | squaring is monotone on non-negative reals |
| `EtaCalculator.LeastRootIsCeil` | server/utils/etaCalculator.js:13 | the least natural whose square reaches x² is ceil(x) |
| `EtaCalculator.EtaFromSquaredDistance` | server/controllers/ambulanceController.js:103 | the label the controllers return, from the squared distance: "Unknown" exactly at distance 0, never "Less than 1 minute" |
| `EtaCalculator.EtaFromSquaredDistanceAgrees` | server/utils/etaCalculator.js:7-24 | the label computed from d² is the label for d at the default 40 km/h |
| `SignalLogic.GreenEntries` | server/utils/signalLogic.js:19-23 | one entry per route id |
| `SignalLogic.GreenEntriesAt` | server/utils/signalLogic.js:19-23 | entry i is (routeSignals[i], GREEN, 120), with one entry per id |
| `SignalLogic.GenerateGreenCorridor` | server/utils/signalLogic.js:6-26 | an absent or empty list gives NO_SIGNALS_FOUND with no entries; otherwise ACTIVE with entry i = (id i, GREEN, 120) |
| `SignalLogic.EntryIds` | server/controllers/trafficController.js:38-39 | the signal ids of a corridor's entries, in order |
| `SignalLogic.CalculateSignalTiming` | server/utils/signalLogic.js:34-38 | the least integer not below distance/speed·3600 + 30, with speed defaulting to 40 |
| `SignalLogic.SignalTimingAtLeastBuffer` | server/utils/signalLogic.js:35-37 | at least 30 seconds for distance ≥ 0 and speed > 0 |
| `SignalLogic.Density` | server/utils/signalLogic.js:49-50 | `trafficDensity \|\| 0`: 0 for an absent or zero density, the density otherwise |
| `SignalLogic.ReadingIds` | server/utils/signalLogic.js:53 | the ids of the readings, in order |
| `SignalLogic.Prioritized` | server/utils/signalLogic.js:45-54 | the sorted copy is a permutation of the readings, non-increasing in density |
| `SignalLogic.PrioritizedSpec` | server/utils/signalLogic.js:45-54 | the order is a permutation, non-increasing in density (absent counts as 0), stable on equal densities |
| `SignalLogic.PrioritizeSignals` | server/utils/signalLogic.js:45-54 | sorts the caller's array in place into that order and returns the ids in the new order |
| `SignalLogic.InsertNext` | server/utils/signalLogic.js:46-52 | one pass moves element i into place in the sorted prefix; the suffix is untouched |
| `SignalLogic.ValidateCorridorRoute` | server/utils/signalLogic.js:62-75 | valid iff no invalid ids iff every id is available; invalid ids come from the route and are unavailable; the message lists them |
| `SignalLogic.ValidateRouteAppend` | server/utils/signalLogic.js:63-65 | invalid ids are the route's unknown ids in route order, repeats kept |
| `SignalLogic.RatingFor` | server/utils/signalLogic.js:92-99 | EXCELLENT iff ≥ 80, GOOD iff in [60, 80), AVERAGE iff in [40, 60), POOR iff < 40 |
| `SignalLogic.RatingMonotone` | server/utils/signalLogic.js:92-99 | a higher efficiency never gets a worse rating |
| `SignalLogic.CalculateCorridorEfficiency` | server/utils/signalLogic.js:84-101 | time saved = max(0, expected − actual); efficiency is the percentage clamped to [0, 100]; the rating is taken from the unclamped percentage |
| `SignalLogic.NoSavingIsPoor` | server/utils/signalLogic.js:85-99 | at or over the expected time: no saving, efficiency 0, POOR |
| `TrafficController.SetRoute` | server/controllers/trafficController.js:38-44 | only state and tag can change; ids and locations are kept and the length is unchanged |
| `TrafficController.SetRouteHits` | server/controllers/trafficController.js:38-44 | the first signal with a route id gets the new state and tag |
| `TrafficController.SetRouteMisses` | server/controllers/trafficController.js:38-44 | a signal whose id is not on the route is unchanged |
| `TrafficController.SetRouteStep` | server/controllers/trafficController.js:38-44 | one more route id updates only the first signal with that id; an unknown id changes nothing |
| `TrafficController.DeactivateIdempotent` | server/controllers/trafficController.js:119-125 | deactivating the same route twice leaves the signals as once |
| `TrafficController.ActivateThenDeactivateIsNotRestore` | server/controllers/trafficController.js:119-125 | after activation and deactivation a routed signal is RED with a null tag, so a signal that was not RED-and-null has changed |
| `TrafficController.TrafficRegistry.constructor` | server/controllers/trafficController.js:4-13 | the five seed signals and no corridors |
| `TrafficController.TrafficRegistry.ApplyToSignals` | server/controllers/trafficController.js:38-44 | the `forEach` sets state and tag on the first signal per entry id; the corridors are unchanged |
| `TrafficController.TrafficRegistry.ActivateGreenCorridor` | server/controllers/trafficController.js:19-63 | a 400 changes nothing. Success turns the route's signals GREEN with the corridor tag, others unchanged, and appends exactly one corridor carrying the emergency id, its creation time and its activation time |
| `TrafficController.TrafficRegistry.GetSignal` | server/controllers/trafficController.js:69-85 | the first signal with the id, or 404 exactly when none has it |
| `TrafficController.TrafficRegistry.GetAllSignals` | server/controllers/trafficController.js:91-103 | the whole registry and its size |
| `TrafficController.TrafficRegistry.DeactivateGreenCorridor` | server/controllers/trafficController.js:109-141 | unknown corridor: 404, nothing changed. Otherwise its signals become RED with a null tag, others are untouched, and the corridor becomes INACTIVE |
| `AmbulanceController.RouteStub` | server/controllers/ambulanceController.js:111-115 | exactly three points: start, coordinate-wise midpoint, destination |
| `AmbulanceController.AmbulanceRegistry.constructor` | server/controllers/ambulanceController.js:4-19 | the two seed ambulances |
| `AmbulanceController.AmbulanceRegistry.GetAmbulance` | server/controllers/ambulanceController.js:25-41 | the first ambulance with the id, or 404 exactly when none has it |
| `AmbulanceController.AmbulanceRegistry.UpdateLocation` | server/controllers/ambulanceController.js:47-76 | absent or zero coordinate: 400 before lookup. Unknown id: 404. Otherwise only that ambulance's location and lastUpdate change; the length stays the same |
| `AmbulanceController.AmbulanceRegistry.GetRoute` | server/controllers/ambulanceController.js:82-123 | 404 exactly for an unknown id and an Ok answer otherwise; the squared distance, the three-point route, and the ETA `calculateETA` gives for the distance |
| `AmbulanceController.AmbulanceRegistry.FindNearest` | server/controllers/ambulanceController.js:129-169 | 400 without coordinates; 404 when none is AVAILABLE. Otherwise an AVAILABLE ambulance no farther than any other, and strictly nearer than every earlier one, with the ETA `calculateETA` gives for its distance |
| `AmbulanceController.NearestIndex` | server/controllers/ambulanceController.js:144-156 | the scan keeps the first strict minimum: minimal, and strictly below every earlier distance |
| `AmbulanceController.EtaAgrees` | server/controllers/ambulanceController.js:161 | the label computed from the squared distance is `calculateETA` of the distance |
| `HospitalController.WithinRadiusIsDistance` | server/controllers/hospitalController.js:45-49 | the squared radius test holds exactly when distance ≤ radius |
| `HospitalController.WithinRadiusMonotone` | server/controllers/hospitalController.js:49 | a larger radius admits every distance a smaller one admits |
| `HospitalController.HospitalsOf` | server/controllers/hospitalController.js:54 | the hospitals of the answer entries, in order |
| `HospitalController.HospitalRegistry.constructor` | server/controllers/hospitalController.js:2-30 | the three seed hospitals, no notifications, invariant established |
| `HospitalController.HospitalRegistry.FindNearby` | server/controllers/hospitalController.js:36-68 | 400 exactly without coordinates, Ok whenever both are present: the registry's hospitals within the radius (default 10), in order, each with its squared distance; count = length |
| `HospitalController.HospitalRegistry.FindNearbyExact` | server/controllers/hospitalController.js:44-50 | a hospital is in the answer exactly when its distance is ≤ the radius |
| `HospitalController.HospitalRegistry.FindNearbyMonotone` | server/controllers/hospitalController.js:44-50 | a larger radius never drops a hospital |
| `HospitalController.HospitalRegistry.GetHospital` | server/controllers/hospitalController.js:117-133 | the first hospital with the id, or 404 exactly when none has it |
| `HospitalController.HospitalRegistry.GetNotifications` | server/controllers/hospitalController.js:139-154 | exactly the notifications addressed to the id, in the order they were sent (the ordered filter of the log); count = length |
| `HospitalController.HospitalRegistry.UnknownHospitalHasNoNotifications` | server/controllers/hospitalController.js:79-95 | an id no hospital has gets an empty list, not an error |
| `HospitalController.HospitalRegistry.PrepareHospital` | server/controllers/hospitalController.js:74-111 | unknown id: 404, nothing appended. Otherwise exactly one SENT notification for that hospital, eta defaulting to "Unknown" and patientInfo to {} |
| `HospitalController.NotificationsAfterAppend` | server/controllers/hospitalController.js:142 | a new notification joins the end of its hospital's list; other hospitals' lists are unchanged |
| `EmergencyController.EmergencyRegistry.constructor` | server/controllers/emergencyController.js:4 | empty registry, nothing broadcast |
| `EmergencyController.EmergencyRegistry.TriggerEmergency` | server/controllers/emergencyController.js:10-50 | no location or a falsy coordinate: 400, nothing stored or broadcast. Otherwise exactly one ACTIVE record with null ids is appended and broadcast once; severity defaults to MEDIUM and patientInfo to {} |
| `EmergencyController.EmergencyRegistry.GetEmergency` | server/controllers/emergencyController.js:56-72 | the first record with the id, or 404 exactly when none has it |
| `EmergencyController.EmergencyRegistry.GetAllEmergencies` | server/controllers/emergencyController.js:78-91 | the ACTIVE records in insertion order; count = length |
| `EmergencyController.EmergencyRegistry.AllEmergenciesAreActive` | server/controllers/emergencyController.js:20-31 | no handler changes a status, so the ACTIVE list is the whole registry |
| `EmergencyController.TriggeredIsListed` | server/controllers/emergencyController.js:80 | a new emergency appears at the end of the ACTIVE list |
| `VehicleController.Credit` | server/controllers/vehicleController.js:77-90 | an action keeps the id, adds its points to the score, re-derives the tier from the new score and appends the record |
| `VehicleController.LogInto` | server/controllers/vehicleController.js:64-91 | the registry grows by at most one record, and afterwards a record carries the vehicle id |
| `VehicleController.ScoreOf` | server/controllers/vehicleController.js:118-130 | what `getScore` reports for an id always carries that id |
| `VehicleController.CreditConsistent` | server/controllers/vehicleController.js:77-90 | crediting an action keeps score = sum of points and tier = level of score |
| `VehicleController.LogIntoShape` | server/controllers/vehicleController.js:64-74 | at most one record is created, exactly when the id is unseen, and it starts from 0 / NEW / no actions; other vehicles are unchanged |
| `VehicleController.LogPreservesWellFormed` | server/controllers/vehicleController.js:64-91 | logging keeps ids unique and every record consistent |
| `VehicleController.LogNewPreservesWellFormed` | server/controllers/vehicleController.js:66-74 | a first action appends a consistent record under an id no other record has |
| `VehicleController.LogKnownPreservesWellFormed` | server/controllers/vehicleController.js:77-90 | a later action credits its record in place and keeps the registry well formed |
| `VehicleController.LogSteps` | server/controllers/vehicleController.js:64-91 | find, push-if-absent, then credit in place gives `LogInto`, and the credited record is what is reported for the id afterwards |
| `VehicleController.LogAddsPoints` | server/controllers/vehicleController.js:77-90 | the vehicle's score grows by the action's points (from 0 if unseen), its tier follows, and its actions gain exactly the record; other ids are unchanged |
| `VehicleController.LogTwiceAddsTwice` | server/controllers/vehicleController.js:77-78 | not idempotent: the same action twice adds its points twice |
| `VehicleController.SliceEnd` | server/controllers/vehicleController.js:149 | `slice(0, limit)` ends at min(limit, n), counting back from the end for a negative limit |
| `VehicleController.VehicleRegistry.constructor` | server/controllers/vehicleController.js:4-6 | empty registries, invariant established |
| `VehicleController.VehicleRegistry.LogAction` | server/controllers/vehicleController.js:54-109 | missing action: 400, nothing changed. Otherwise the registry becomes the logged one, the record is appended to the global log, and the invariant is kept |
| `VehicleController.VehicleRegistry.GetScore` | server/controllers/vehicleController.js:115-137 | the vehicle's record, or the zero stub with its message exactly when the id is unseen |
| `VehicleController.VehicleRegistry.GetLeaderboard` | server/controllers/vehicleController.js:143-167 | the first `limit` (default 10) of the stably sorted copy, ranked from 1, with actionsCount |
| `VehicleController.VehicleRegistry.LeaderboardSorted` | server/controllers/vehicleController.js:147-159 | at most `limit` entries, rank = index + 1, scores non-increasing |
| `VehicleController.VehicleRegistry.LeaderboardFromRegistry` | server/controllers/vehicleController.js:147-159 | every entry reports a registered vehicle |
| `VehicleController.VehicleRegistry.LeaderboardComplete` | server/controllers/vehicleController.js:147-159 | with a limit covering the registry, every vehicle appears |
| `VehicleController.VehicleRegistry.SendAlert` | server/controllers/vehicleController.js:12-48 | 400 without an emergency id or location. Otherwise exactly one alert is appended (radius defaults to 1, 0 vehicles notified); vehicles and actions are unchanged |

## Left out

- **Transport.** Express routing, the middleware, the 500 `catch`
  branches, `console.log`, and Socket.IO rooms are not modelled. The
  broadcast is only the ghost log `broadcasts`.
- **Distances.**
  - `Math.sqrt` and `toFixed(2)`: answers carry the squared distance, not
    the rounded kilometre string.
  - `calculateDistance` and `toRadians` (the haversine formula) are not
    modelled. They use floating-point trigonometry, and no handler calls
    them.
- **Parsing.** `parseFloat`, `parseInt` and NaN are not modelled.
  - A query coordinate is a real number or absent.
  - An empty `radius` string would give NaN and an empty answer; the model
    has no such case.
  - `getRoute` takes the destination as a `Coord`, so a missing destination
    (NaN, label "Unknown") is not modelled.
  - A non-numeric `limit` (NaN, empty leaderboard) is not modelled.
- **Query-string coordinates.** `findNearest` and `findNearby` reject only
  an absent (or empty) coordinate, not `0`. The query value is a string, and
  `"0"` is truthy in JavaScript. Body coordinates (`updateLocation`,
  `triggerEmergency`) are modelled as JSON numbers, and there `0` is
  rejected.
- **Form-encoded bodies.** The server also accepts urlencoded bodies
  (server/app.js:16). There `lat` and `lng` arrive as strings, `"0"` is
  truthy, and the stored coordinates are strings. Only JSON bodies are
  modelled.
- **Request shapes.**
  - `patientInfo` is a `map<string, string>` rather than any JSON value.
  - A `location` sent as a non-object, or carrying extra fields, is not
    modelled.
  - A `routeSignals` that is not an array is the absent case.
- **Clock and ids.** `Date.now()` ids and ISO timestamps are caller-supplied
  parameters, so same-millisecond id collisions are not modelled.
- **Numbers.** JavaScript floating point is not modelled: reals are exact and
  integers unbounded. Division by zero is excluded by a precondition rather
  than modelled as Infinity or NaN:
  - `SignalLogic.CalculateSignalTiming` requires a non-zero speed.
  - `SignalLogic.CalculateCorridorEfficiency` requires a non-zero expected
    time.
  - `calculateETA` at speed 0 is modelled, as "Infinity minutes".
- **Object keys.** The prototype-key quirks of `scoreMap[action] || 0` and
  `benefits[level] || benefits.NEW` (an action named `constructor`) are not
  modelled. The tables are finite maps with a default.
- `SignalLogic.ValidateCorridorRoute`: it takes the ids of the available
  signals instead of the signal objects that `find` searches by `id`.
- `SignalLogic.PrioritizeSignals`: `Array.prototype.sort` is modelled by
  its required behaviour, a stable sort, implemented as insertion sort.
  The engine's actual algorithm is not modelled.
- **Answer envelopes.** The `success: true` and `message` fields that
  several success answers carry are not modelled where they are constant;
  `TriggerEmergency`'s 201 status is not told apart from 200, since
  `Response` has one success case. For an unseen vehicle, `getScore`'s
  stub names its id `vehicleId` (server/controllers/vehicleController.js:121),
  while stored records use `id`; the model's stub is a `Vehicle`, whose
  field is `id`.
- **Socket server.** `emitEmergencyUpdate` does nothing while the Socket.IO
  server is unset (server/sockets/rescueSocket.js:36-42). The model assumes it is
  set: `broadcasts` always records the new emergency.
- **Shared records.** In the source, a vehicle's `actions` entries are the
  same objects as those in the global `actions` log. The model keeps
  copies, so the aliasing is not modelled.
- **Stored levels.** The `level` strings stored on vehicles are the
  `RescueScore.Level` datatype, whose names `RescueScore.LevelName` gives.
