/**
 * Rescue-score rules (server/utils/rescueScoreLogic.js): points per driver
 * action, the five tiers derived from a cumulative score, tier succession,
 * the progress report towards the next tier, and the benefits fallback.
 */
module RescueScore {
  import opened Common

  datatype Level = New | Bronze | Silver | Gold | Platinum

  /** The tier names, in order; `getNextLevel` and `getPreviousLevel` index into this list. */
  const LevelNames: seq<string> := ["NEW", "BRONZE", "SILVER", "GOLD", "PLATINUM"]

  function Rank(l: Level): (i: nat)
    ensures i < |LevelNames|
  {
    match l
    case New => 0
    case Bronze => 1
    case Silver => 2
    case Gold => 3
    case Platinum => 4
  }

  function LevelName(l: Level): (name: string)
    ensures name == LevelNames[Rank(l)]
  {
    match l
    case New => "NEW"
    case Bronze => "BRONZE"
    case Silver => "SILVER"
    case Gold => "GOLD"
    case Platinum => "PLATINUM"
  }

  /** The tier one step up; PLATINUM is the top. */
  function Succ(l: Level): Level
  {
    match l
    case New => Bronze
    case Bronze => Silver
    case Silver => Gold
    case Gold => Platinum
    case Platinum => Platinum
  }

  /** The tier one step down; NEW is the bottom. */
  function Pred(l: Level): Level
  {
    match l
    case New => New
    case Bronze => New
    case Silver => Bronze
    case Gold => Silver
    case Platinum => Gold
  }

  // ---------------------------------------------------------------- action points

  const ScoreTable: map<string, int> := map[
    "EARLY_YIELD" := 10,
    "ON_TIME_YIELD" := 7,
    "LATE_YIELD" := 3,
    "BLOCKED_AMBULANCE" := -15,
    "REPORTED_BLOCK" := 5,
    "ASSISTED_ACCIDENT" := 20,
    "BLOOD_DONATION" := 15,
    "FALSE_REPORT" := -10
  ]

  /** `scoreMap[action] || 0`: every table value is non-zero, so an unknown action scores 0. */
  function GetScoreForAction(action: string): (points: int)
    ensures action !in ScoreTable ==> points == 0
    ensures action in ScoreTable ==> points == ScoreTable[action] && points != 0
  {
    if action in ScoreTable then ScoreTable[action] else 0
  }

  /** Every action is worth between -15 and +20 points; only two actions cost points. */
  lemma ActionScoreBounds(action: string)
    ensures -15 <= GetScoreForAction(action) <= 20
    ensures GetScoreForAction(action) < 0 <==> action == "BLOCKED_AMBULANCE" || action == "FALSE_REPORT"
  {
  }

  // ---------------------------------------------------------------- tiers

  /** The score at which a tier starts; NEW has no lower bound. */
  function Threshold(l: Level): (t: int)
    ensures 0 <= t <= 100
    ensures t == 0 <==> l == New
  {
    match l
    case New => 0
    case Bronze => 10
    case Silver => 30
    case Gold => 60
    case Platinum => 100
  }

  /** Each tier starts strictly above the one below it. */
  lemma ThresholdsIncrease(l: Level)
    requires l != Platinum
    ensures Threshold(l) < Threshold(Succ(l))
  {
  }

  /** The `scoreMap` table: the eight actions and their points. */
  lemma ScoreTableContents()
    ensures ScoreTable.Keys == {"EARLY_YIELD", "ON_TIME_YIELD", "LATE_YIELD", "BLOCKED_AMBULANCE",
                                "REPORTED_BLOCK", "ASSISTED_ACCIDENT", "BLOOD_DONATION", "FALSE_REPORT"}
    ensures ScoreTable["EARLY_YIELD"] == 10 && ScoreTable["ON_TIME_YIELD"] == 7 && ScoreTable["LATE_YIELD"] == 3
    ensures ScoreTable["BLOCKED_AMBULANCE"] == -15 && ScoreTable["REPORTED_BLOCK"] == 5
    ensures ScoreTable["ASSISTED_ACCIDENT"] == 20 && ScoreTable["BLOOD_DONATION"] == 15 && ScoreTable["FALSE_REPORT"] == -10
  {
  }

  /** The highest tier whose threshold the score reaches. */
  function GetRescueLevel(totalScore: int): (l: Level)
    ensures l != New ==> totalScore >= Threshold(l)
    ensures l != Platinum ==> totalScore < Threshold(Succ(l))
  {
    if totalScore >= 100 then Platinum
    else if totalScore >= 60 then Gold
    else if totalScore >= 30 then Silver
    else if totalScore >= 10 then Bronze
    else New
  }

  /** A higher score never yields a lower tier. */
  lemma RescueLevelMonotone(s: int, t: int)
    requires s <= t
    ensures Rank(GetRescueLevel(s)) <= Rank(GetRescueLevel(t))
  {
  }

  /** Thresholds belong to the higher tier; one point below belongs to the lower one; negative scores are NEW. */
  lemma RescueLevelBoundaries(s: int)
    ensures s < 0 ==> GetRescueLevel(s) == New
    ensures GetRescueLevel(9) == New && GetRescueLevel(10) == Bronze
    ensures GetRescueLevel(29) == Bronze && GetRescueLevel(30) == Silver
    ensures GetRescueLevel(59) == Silver && GetRescueLevel(60) == Gold
    ensures GetRescueLevel(99) == Gold && GetRescueLevel(100) == Platinum
  {
  }

  // ---------------------------------------------------------------- tier succession on names

  /** `Array.prototype.indexOf`: the first position of `x`, or -1. */
  function IndexOf(xs: seq<string>, x: string): (i: int)
    ensures -1 <= i < |xs|
    ensures i >= 0 ==> xs[i] == x && forall j :: 0 <= j < i ==> xs[j] != x
    ensures i == -1 ==> forall j :: 0 <= j < |xs| ==> xs[j] != x
    decreases |xs|
  {
    if |xs| == 0 then -1
    else if xs[0] == x then 0
    else var k := IndexOf(xs[1..], x); if k == -1 then -1 else k + 1
  }

  /** `getNextLevel`: the name after `current` in the tier list, PLATINUM at the top (and NEW for an unknown name, whose index is -1). */
  function GetNextLevel(current: string): (next: string)
    ensures next in LevelNames
  {
    var i := IndexOf(LevelNames, current);
    if i < |LevelNames| - 1 then LevelNames[i + 1] else "PLATINUM"
  }

  /** `getPreviousLevel`: the name before `current`, NEW at the bottom and for an unknown name. */
  function GetPreviousLevel(current: string): (prev: string)
    ensures prev in LevelNames && prev != "PLATINUM"
  {
    var i := IndexOf(LevelNames, current);
    if i > 0 then LevelNames[i - 1] else "NEW"
  }

  lemma LevelNameIndex(l: Level)
    ensures IndexOf(LevelNames, LevelName(l)) == Rank(l)
  {
  }

  /** On tier names the name functions are the successor and predecessor of the tier order. */
  lemma NextAndPreviousLevel(l: Level)
    ensures GetNextLevel(LevelName(l)) == LevelName(Succ(l))
    ensures GetPreviousLevel(LevelName(l)) == LevelName(Pred(l))
    ensures Rank(Succ(l)) == if l == Platinum then 4 else Rank(l) + 1
    ensures Rank(Pred(l)) == if l == New then 0 else Rank(l) - 1
  {
    LevelNameIndex(l);
  }

  /** A string that names no tier has index -1, so both functions answer NEW. */
  lemma UnknownLevelName(name: string)
    requires name !in LevelNames
    ensures GetNextLevel(name) == "NEW" && GetPreviousLevel(name) == "NEW"
  {
  }

  // ---------------------------------------------------------------- progress

  /** The `thresholds` table: the score that ends each tier; PLATINUM (Infinity) is absent. */
  const NextThresholds: map<string, int> := map["NEW" := 10, "BRONZE" := 30, "SILVER" := 60, "GOLD" := 100]

  datatype Progress = Progress(
    currentLevel: Level,
    currentScore: int,
    nextLevel: string,
    pointsToNext: int,
    progress: real)

  /**
   * `getLevelProgress`: below PLATINUM, the share of the current tier's span
   * (from its own threshold to the next) already covered, as a percentage
   * capped at 100, and the points still missing.
   */
  function GetLevelProgress(currentScore: int): (p: Progress)
    ensures p.currentLevel == GetRescueLevel(currentScore) && p.currentScore == currentScore
    ensures p.currentLevel != Platinum ==>
      var l := p.currentLevel;
      var raw := (currentScore - Threshold(l)) as real / (Threshold(Succ(l)) - Threshold(l)) as real * 100.0;
      p.progress == if raw < 100.0 then raw else 100.0
    ensures p.currentLevel == Platinum ==> p.progress == 100.0 && p.pointsToNext == 0
    ensures p.currentLevel != Platinum ==>
      p.pointsToNext == Threshold(Succ(p.currentLevel)) - currentScore && p.pointsToNext > 0
    ensures p.progress <= 100.0
    ensures p.currentLevel != Platinum ==> (p.progress >= 0.0 <==> currentScore >= 0)
  {
    var level := GetRescueLevel(currentScore);
    var name := LevelName(level);
    ThresholdTable(level);
    var prevThreshold := if name == "NEW" then 0 else NextThresholds[GetPreviousLevel(name)];
    if name !in NextThresholds then
      Progress(level, currentScore, GetNextLevel(name), 0, 100.0)
    else
      var nextThreshold := NextThresholds[name];
      assert prevThreshold == Threshold(level) && nextThreshold == Threshold(Succ(level));
      var progress := ((currentScore - prevThreshold) as real / (nextThreshold - prevThreshold) as real) * 100.0;
      Progress(level, currentScore, GetNextLevel(name), nextThreshold - currentScore,
               if progress < 100.0 then progress else 100.0)
  }

  /**
   * The `thresholds` table read through tier names: a tier's entry is where
   * the next tier starts, and the entry of the tier before it is where the
   * tier itself starts; PLATINUM has no entry.
   */
  lemma ThresholdTable(l: Level)
    ensures LevelName(l) in NextThresholds <==> l != Platinum
    ensures l != Platinum ==> NextThresholds[LevelName(l)] == Threshold(Succ(l))
    ensures l != New && l != Platinum ==> NextThresholds[GetPreviousLevel(LevelName(l))] == Threshold(l)
  {
    NextAndPreviousLevel(l);
  }

  /** The reported next level is the successor tier's name. */
  lemma ProgressNextLevel(score: int)
    ensures GetLevelProgress(score).nextLevel == LevelName(Succ(GetRescueLevel(score)))
  {
    NextAndPreviousLevel(GetRescueLevel(score));
  }

  // ---------------------------------------------------------------- benefits

  datatype Benefits = Benefits(badge: string, perks: seq<string>, color: string)

  /** The `benefits` table entry of a tier: a badge, at least one perk, and a colour of its own. */
  function BenefitsOf(l: Level): (b: Benefits)
    ensures |b.badge| == 1 && |b.perks| >= 1
  {
    match l
    case Platinum => Benefits("\U{1F3C6}", ["Priority ambulance access", "Insurance discounts", "Free annual health check", "VIP hospital services"], "#E5E4E2")
    case Gold => Benefits("\U{1F947}", ["Insurance discount", "Free health checkup", "Priority support"], "#FFD700")
    case Silver => Benefits("\U{1F948}", ["Basic insurance discount", "Recognition badge"], "#C0C0C0")
    case Bronze => Benefits("\U{1F949}", ["Recognition badge", "Community support"], "#CD7F32")
    case New => Benefits("\U{1F195}", ["Welcome to RescueRoute!"], "#808080")
  }

  /** Different tiers have different badges and colours. */
  lemma BenefitsDistinct(l1: Level, l2: Level)
    requires l1 != l2
    ensures BenefitsOf(l1).badge != BenefitsOf(l2).badge
    ensures BenefitsOf(l1).color != BenefitsOf(l2).color
  {
  }

  /** `benefits[level] || benefits.NEW`: the entry for a tier name, the NEW entry for anything else. */
  function GetLevelBenefits(level: string): (b: Benefits)
    ensures forall l: Level :: level == LevelName(l) ==> b == BenefitsOf(l)
    ensures level !in LevelNames ==> b == BenefitsOf(New)
  {
    var i := IndexOf(LevelNames, level);
    if i == 4 then BenefitsOf(Platinum)
    else if i == 3 then BenefitsOf(Gold)
    else if i == 2 then BenefitsOf(Silver)
    else if i == 1 then BenefitsOf(Bronze)
    else BenefitsOf(New)
  }
}
