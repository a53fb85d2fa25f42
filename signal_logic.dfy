/**
 * Green-corridor helpers (server/utils/signalLogic.js): building a corridor
 * from signal ids, the recommended green duration, prioritising signals by
 * traffic density, validating a route against the known signals, and the
 * efficiency report of a finished corridor.
 */
module SignalLogic {
  import opened Common
  import StableSort

  datatype SignalState = Red | Yellow | Green

  datatype CorridorStatus = NoSignalsFound | Active | Inactive

  /** One entry of a corridor's `signals` list. */
  datatype SignalEntry = SignalEntry(signalId: string, state: SignalState, duration: int)

  /** What `generateGreenCorridor` returns; the NO_SIGNALS_FOUND shape has neither id nor timestamp. */
  datatype GreenCorridor = GreenCorridor(
    corridorId: Option<string>,
    status: CorridorStatus,
    signals: seq<SignalEntry>,
    createdAt: Option<string>)

  const GreenDuration: int := 120

  /** `routeSignals.map(signalId => ({signalId, state: "GREEN", duration: 120}))`. */
  function GreenEntries(ids: seq<string>): (r: seq<SignalEntry>)
    ensures |r| == |ids|
    decreases |ids|
  {
    if |ids| == 0 then [] else GreenEntries(ids[..|ids| - 1]) + [SignalEntry(ids[|ids| - 1], Green, GreenDuration)]
  }

  lemma {:induction false} GreenEntriesAt(ids: seq<string>)
    ensures |GreenEntries(ids)| == |ids|
    ensures forall i :: 0 <= i < |ids| ==> GreenEntries(ids)[i] == SignalEntry(ids[i], Green, GreenDuration)
    decreases |ids|
  {
    if |ids| > 0 {
      GreenEntriesAt(ids[..|ids| - 1]);
    }
  }

  /**
   * `generateGreenCorridor(routeSignals)`; an absent list defaults to `[]`.
   * The corridor id and creation time are the caller's.
   */
  function GenerateGreenCorridor(routeSignals: Option<seq<string>>, corridorId: string, createdAt: string): (c: GreenCorridor)
    ensures routeSignals.None? || routeSignals.value == [] ==>
      c == GreenCorridor(None, NoSignalsFound, [], None)
    ensures routeSignals.Some? && routeSignals.value != [] ==>
      c.status == Active && c.corridorId == Some(corridorId) && c.createdAt == Some(createdAt) &&
      |c.signals| == |routeSignals.value| &&
      forall i :: 0 <= i < |c.signals| ==> c.signals[i] == SignalEntry(routeSignals.value[i], Green, GreenDuration)
  {
    if routeSignals.None? || |routeSignals.value| == 0 then
      GreenCorridor(None, NoSignalsFound, [], None)
    else
      GreenEntriesAt(routeSignals.value);
      GreenCorridor(Some(corridorId), Active, GreenEntries(routeSignals.value), Some(createdAt))
  }

  /** The ids a corridor's entries name, in order. */
  function EntryIds(entries: seq<SignalEntry>): (ids: seq<string>)
    ensures |ids| == |entries|
    ensures forall i :: 0 <= i < |entries| ==> ids[i] == entries[i].signalId
  {
    seq(|entries|, i requires 0 <= i < |entries| => entries[i].signalId)
  }

  // ---------------------------------------------------------------- timing

  /**
   * `calculateSignalTiming(ambulanceSpeed = 40, distanceToSignal)`: the time to
   * reach the signal in seconds plus a 30-second buffer, rounded up.
   */
  function CalculateSignalTiming(ambulanceSpeed: Option<real>, distanceToSignal: real): (seconds: int)
    requires ambulanceSpeed.None? || ambulanceSpeed.value != 0.0
    ensures var speed := if ambulanceSpeed.None? then 40.0 else ambulanceSpeed.value;
      seconds as real - 1.0 < distanceToSignal / speed * 3600.0 + 30.0 <= seconds as real
  {
    var speed := if ambulanceSpeed.None? then 40.0 else ambulanceSpeed.value;
    Ceil(distanceToSignal / speed * 3600.0 + 30.0)
  }

  /** The recommendation never undercuts the buffer when the distance and speed are non-negative and positive. */
  lemma SignalTimingAtLeastBuffer(ambulanceSpeed: Option<real>, distanceToSignal: real)
    requires ambulanceSpeed.None? || ambulanceSpeed.value > 0.0
    requires distanceToSignal >= 0.0
    ensures CalculateSignalTiming(ambulanceSpeed, distanceToSignal) >= 30
  {
    var speed := if ambulanceSpeed.None? then 40.0 else ambulanceSpeed.value;
    assert distanceToSignal / speed >= 0.0;
  }

  // ---------------------------------------------------------------- prioritising

  /** A signal with its traffic data; `trafficDensity` may be absent. */
  datatype TrafficReading = TrafficReading(id: string, trafficDensity: Option<real>)

  /** `a.trafficDensity || 0`: absent and zero both count as 0. */
  function Density(s: TrafficReading): (d: real)
    ensures FalsyNumber(s.trafficDensity) ==> d == 0.0
    ensures !FalsyNumber(s.trafficDensity) ==> d == s.trafficDensity.value
  {
    if s.trafficDensity.None? then 0.0 else s.trafficDensity.value
  }

  function ReadingIds(s: seq<TrafficReading>): (ids: seq<string>)
    ensures |ids| == |s|
    ensures forall i :: 0 <= i < |s| ==> ids[i] == s[i].id
  {
    seq(|s|, i requires 0 <= i < |s| => s[i].id)
  }

  /** The order `signals.sort((a, b) => density(b) - density(a))` produces. */
  function Prioritized(s: seq<TrafficReading>): (r: seq<TrafficReading>)
    ensures multiset(r) == multiset(s)
    ensures forall i, j :: 0 <= i < j < |r| ==> Density(r[i]) >= Density(r[j])
  {
    StableSort.SortPermutes(s, Density);
    StableSort.SortSorted(s, Density);
    StableSort.SortDesc(s, Density)
  }

  /** Prioritized is a permutation, non-increasing in density, and keeps equal densities in input order. */
  lemma PrioritizedSpec(s: seq<TrafficReading>, d: real)
    ensures multiset(Prioritized(s)) == multiset(s)
    ensures forall i, j :: 0 <= i < j < |s| ==> Density(Prioritized(s)[i]) >= Density(Prioritized(s)[j])
    ensures StableSort.WithKey(Prioritized(s), Density, d) == StableSort.WithKey(s, Density, d)
  {
    StableSort.SortPermutes(s, Density);
    StableSort.SortSorted(s, Density);
    StableSort.SortStable(s, Density, d);
  }

  /**
   * `prioritizeSignals(signals)`: sorts the caller's array in place (stable,
   * by non-increasing density) and returns the ids in the new order.
   */
  method PrioritizeSignals(signals: array<TrafficReading>) returns (ids: seq<string>)
    modifies signals
    ensures signals[..] == Prioritized(old(signals[..]))
    ensures ids == ReadingIds(signals[..])
  {
    ghost var input := signals[..];
    var i := 0;
    while i < signals.Length
      invariant 0 <= i <= signals.Length
      invariant signals[..i] == Prioritized(input[..i])
      invariant forall m :: i <= m < signals.Length ==> signals[m] == input[m]
    {
      assert signals[..i] == Prioritized(input[..i]) && signals[i] == input[i];
      InsertNext(signals, i);
      assert input[..i + 1][..i] == input[..i];
      i := i + 1;
    }
    assert signals[..] == signals[..signals.Length];
    assert input[..signals.Length] == input;
    ids := ReadingIds(signals[..]);
  }

  /** One pass of insertion sort: moves `signals[i]` into place within the sorted prefix `signals[..i]`. */
  method InsertNext(signals: array<TrafficReading>, i: nat)
    requires i < signals.Length
    modifies signals
    ensures signals[..i + 1] == StableSort.Insert(old(signals[..i]), old(signals[i]), Density)
    ensures signals[i + 1..] == old(signals[i + 1..])
  {
    ghost var sorted := signals[..i];
    var x := signals[i];
    var j := i;
    while j > 0 && Density(signals[j - 1]) < Density(x)
      invariant 0 <= j <= i
      invariant forall m :: 0 <= m < j ==> signals[m] == sorted[m]
      invariant forall m :: j < m <= i ==> signals[m] == sorted[m - 1]
      invariant forall m :: i < m < signals.Length ==> signals[m] == old(signals[m])
      invariant forall m :: j <= m < i ==> Density(sorted[m]) < Density(x)
    {
      signals[j] := signals[j - 1];
      j := j - 1;
    }
    signals[j] := x;
    ghost var spliced := sorted[..j] + [x] + sorted[j..];
    assert |spliced| == i + 1 && spliced[j] == x;
    assert forall m :: 0 <= m < j ==> spliced[m] == sorted[m];
    assert forall m :: j < m <= i ==> spliced[m] == sorted[m - 1];
    assert signals[..i + 1] == spliced;
    StableSort.InsertSplit(sorted, x, j, Density);
  }

  // ---------------------------------------------------------------- validation

  datatype RouteValidation = RouteValidation(valid: bool, invalidSignals: seq<string>, message: string)

  /**
   * `validateCorridorRoute(signalIds, availableSignals)`, given the ids of the
   * available signals: the route ids with no match, in route order and with
   * repetitions, and a message listing them.
   */
  function ValidateCorridorRoute(signalIds: seq<string>, availableIds: seq<string>): (v: RouteValidation)
    ensures v.valid <==> v.invalidSignals == []
    ensures v.valid <==> forall i :: 0 <= i < |signalIds| ==> signalIds[i] in availableIds
    ensures forall i :: 0 <= i < |v.invalidSignals| ==> v.invalidSignals[i] in signalIds && v.invalidSignals[i] !in availableIds
    ensures v.message == if v.valid then "All signals are valid" else "Invalid signals: " + Join(v.invalidSignals, ", ")
  {
    var invalid := Filter(signalIds, id => id !in availableIds);
    RouteValidation(|invalid| == 0, invalid,
      if |invalid| == 0 then "All signals are valid" else "Invalid signals: " + Join(invalid, ", "))
  }

  /** Checking a longer route reports the shorter route's invalid ids first, then the new one if it is unknown. */
  lemma ValidateRouteAppend(signalIds: seq<string>, id: string, availableIds: seq<string>)
    ensures ValidateCorridorRoute(signalIds + [id], availableIds).invalidSignals ==
      ValidateCorridorRoute(signalIds, availableIds).invalidSignals + (if id in availableIds then [] else [id])
  {
    FilterAppend(signalIds, id, x => x !in availableIds);
  }

  // ---------------------------------------------------------------- efficiency

  datatype Rating = Poor | Average | Good | Excellent

  function RatingRank(r: Rating): nat
  {
    match r
    case Poor => 0
    case Average => 1
    case Good => 2
    case Excellent => 3
  }

  /** The rating bands: 80 and above EXCELLENT, 60 GOOD, 40 AVERAGE, else POOR. */
  function RatingFor(efficiency: real): (r: Rating)
    ensures r == Excellent <==> efficiency >= 80.0
    ensures r == Good <==> 60.0 <= efficiency < 80.0
    ensures r == Average <==> 40.0 <= efficiency < 60.0
    ensures r == Poor <==> efficiency < 40.0
  {
    if efficiency >= 80.0 then Excellent
    else if efficiency >= 60.0 then Good
    else if efficiency >= 40.0 then Average
    else Poor
  }

  /** A higher efficiency never gets a worse rating. */
  lemma RatingMonotone(e1: real, e2: real)
    requires e1 <= e2
    ensures RatingRank(RatingFor(e1)) <= RatingRank(RatingFor(e2))
  {
  }

  datatype Efficiency = Efficiency(corridorId: Option<string>, timeSaved: real, efficiency: real, rating: Rating)

  /**
   * `calculateCorridorEfficiency(corridor, actualTime, expectedTime)`: the time
   * saved (never negative), the saving as a percentage of the expected time
   * clamped to [0, 100], and a rating taken from the unclamped percentage.
   */
  function CalculateCorridorEfficiency(corridorId: Option<string>, actualTime: real, expectedTime: real): (e: Efficiency)
    requires expectedTime != 0.0
    ensures e.corridorId == corridorId
    ensures e.timeSaved >= 0.0 && e.timeSaved >= expectedTime - actualTime
    ensures e.timeSaved == 0.0 || e.timeSaved == expectedTime - actualTime
    ensures 0.0 <= e.efficiency <= 100.0
    ensures var raw := (expectedTime - actualTime) / expectedTime * 100.0;
      (0.0 <= raw <= 100.0 ==> e.efficiency == raw) &&
      (raw < 0.0 ==> e.efficiency == 0.0) &&
      (raw > 100.0 ==> e.efficiency == 100.0) &&
      e.rating == RatingFor(raw)
  {
    var timeSaved := expectedTime - actualTime;
    var efficiency := (timeSaved / expectedTime) * 100.0;
    var capped := if efficiency < 100.0 then efficiency else 100.0;
    Efficiency(corridorId,
      if timeSaved > 0.0 then timeSaved else 0.0,
      if capped > 0.0 then capped else 0.0,
      RatingFor(efficiency))
  }

  /** A corridor that ran at or over the expected time (with expected time positive) saves nothing and is POOR. */
  lemma NoSavingIsPoor(corridorId: Option<string>, actualTime: real, expectedTime: real)
    requires expectedTime > 0.0 && actualTime >= expectedTime
    ensures var e := CalculateCorridorEfficiency(corridorId, actualTime, expectedTime);
      e.timeSaved == 0.0 && e.efficiency == 0.0 && e.rating == Poor
  {
    assert (expectedTime - actualTime) / expectedTime <= 0.0;
  }
}
