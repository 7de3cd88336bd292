/** The graduation panel: the rank ladder named after the level, the width
    of the progress bar and the level shown as the next tier. */
module Graduation {
  import opened LevelCurve
  import opened Progression

  /** The six ranks of the ladder, lowest first. */
  datatype Rank = Apprentice | Seeker | Ascetic | Gatekeeper | Grandmaster | Divine

  /** Position of a rank on the ladder: 0 for Apprentice up to 5 for Divine. */
  function Step(r: Rank): (n: nat)
    ensures n <= 5
  {
    match r
    case Apprentice => 0
    case Seeker => 1
    case Ascetic => 2
    case Gatekeeper => 3
    case Grandmaster => 4
    case Divine => 5
  }

  /** The lowest level at which a rank is reached. */
  function MinLevel(r: Rank): (lv: nat)
    ensures r == Apprentice <==> lv == 0
  {
    match r
    case Apprentice => 0
    case Seeker => 2
    case Ascetic => 5
    case Gatekeeper => 10
    case Grandmaster => 20
    case Divine => 40
  }

  /** `getRankName`: the first upper bound the level stays below decides the rank. */
  function RankName(lv: int): (r: Rank)
    ensures r == Apprentice <==> lv < 2
    ensures r == Seeker <==> 2 <= lv < 5
    ensures r == Ascetic <==> 5 <= lv < 10
    ensures r == Gatekeeper <==> 10 <= lv < 20
    ensures r == Grandmaster <==> 20 <= lv < 40
    ensures r == Divine <==> 40 <= lv
  {
    if lv < 2 then Apprentice
    else if lv < 5 then Seeker
    else if lv < 10 then Ascetic
    else if lv < 20 then Gatekeeper
    else if lv < 40 then Grandmaster
    else Divine
  }

  /** The rank of a level is the highest rank whose lowest level it has reached. */
  lemma RankIsHighestReached(lv: nat, r: Rank)
    ensures MinLevel(RankName(lv)) <= lv
    ensures MinLevel(r) <= lv <==> Step(r) <= Step(RankName(lv))
  {
  }

  /** A higher level never yields a lower rank. */
  lemma RankMonotone(lv1: int, lv2: int)
    requires lv1 <= lv2
    ensures Step(RankName(lv1)) <= Step(RankName(lv2))
  {
  }

  /** Every rank is named for its lowest level, and no rank is skipped. */
  lemma RankSurjective(r: Rank)
    ensures RankName(MinLevel(r)) == r
  {
  }

  /** A level reaches at least `m` exactly when the total reaches the
      cumulative points of level `m`. */
  lemma LevelAtLeast(total: nat, m: nat)
    ensures m <= Level(total) <==> Cumulative(m) <= total
  {
    if m <= Level(total) {
      CumulativeMonotone(m, Level(total));
    }
    if Cumulative(m) <= total {
      LevelIsLargest(total, m);
    }
  }

  /** The rank shown for a point total is at least `r` exactly when the total
      has reached the cumulative points of `r`'s lowest level. */
  lemma RankOfTotal(total: nat, r: Rank)
    ensures Step(r) <= Step(RankName(Level(total))) <==> Cumulative(MinLevel(r)) <= total
  {
    LevelAtLeast(total, MinLevel(r));
    RankIsHighestReached(Level(total), r);
  }

  /** The width of the progress bar, in percent: `min(progress, 100)`. */
  function BarWidth(progress: real): (w: real)
    ensures w <= 100.0 && w <= progress
    ensures w == progress || w == 100.0
  {
    if progress <= 100.0 then progress else 100.0
  }

  /** The clamp never cuts the engine's progress, which stays below 100. */
  lemma BarShowsEngineProgress(total: nat)
    ensures 0.0 <= BarWidth(FromTotal(total).progress) < 100.0
    ensures BarWidth(FromTotal(total).progress) == FromTotal(total).progress
  {
  }

  /** The level announced as the next tier. */
  function NextTier(level: int): (next: int)
    ensures next > level
  {
    level + 1
  }

  /** The next tier is what the missing XP buys: adding `requiredXp - currentXp`
      points lands exactly on the next tier, and one point fewer stays on the
      current level. */
  lemma NextTierAfterMissingXp(total: nat)
    ensures var d := FromTotal(total);
      Level(total + (d.requiredXp - d.currentXp)) == NextTier(d.level)
      && Level(total + (d.requiredXp - d.currentXp) - 1) == d.level
  {
    var d := FromTotal(total);
    MissingXpReachesNextLevel(total, d.level, d.currentXp, d.requiredXp);
  }

  lemma MissingXpReachesNextLevel(total: nat, level: nat, currentXp: int, requiredXp: int)
    requires level == Level(total) && requiredXp == 10 * (level + 1)
    requires total == Cumulative(level) + currentXp && 0 <= currentXp < requiredXp
    ensures Level(total + (requiredXp - currentXp)) == level + 1
    ensures Level(total + (requiredXp - currentXp) - 1) == level
  {
    assert total + (requiredXp - currentXp) == Cumulative(level + 1);
    LevelAtThreshold(level + 1);
    LevelBelowThreshold(level);
  }
}
