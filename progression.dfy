/** What the progress altar shows for a point total: the level, the XP
    bucket inside it, and the percentage of the bucket already filled. */
module Progression {
  import opened LevelCurve

  /** Exact thresholds: a total of exactly `Cumulative(level)` reaches `level`. */
  lemma LevelAtThreshold(level: nat)
    ensures Level(Cumulative(level)) == level
  {
    LevelUnique(Cumulative(level), level);
  }

  /** One point short of a threshold stays on the level below. */
  lemma LevelBelowThreshold(level: nat)
    ensures Level(Cumulative(level + 1) - 1) == level
  {
    var total: nat := Cumulative(level + 1) - 1;
    assert Cumulative(level + 1) == Cumulative(level) + 10 * (level + 1);
    LevelUnique(total, level);
  }

  datatype LevelingData = LevelingData(
    level: nat,
    progress: real,
    totalPoints: nat,
    currentXp: int,
    requiredXp: int)

  /** `(x / d) * 100`: how far into a bucket of size `d` the count `x` is. */
  function Percent(x: int, d: int): (p: real)
    requires 0 <= x < d
    ensures 0.0 <= p < 100.0
    ensures p * (d as real) == (x as real) * 100.0
  {
    var q := x as real / d as real;
    assert q * (d as real) == x as real;
    q * 100.0
  }

  /** Everything the progress display needs, derived from the total.
      `requiredXp >= 10`, so the percentage is always defined and the
      source's NaN guard never fires. */
  function FromTotal(total: nat): (d: LevelingData)
    ensures d.totalPoints == total && d.level == Level(total)
    ensures d.requiredXp == 10 * (d.level + 1) && d.requiredXp >= 10
    ensures total == Cumulative(d.level) + d.currentXp
    ensures 0 <= d.currentXp < d.requiredXp && d.progress == Percent(d.currentXp, d.requiredXp)
    ensures 0.0 <= d.progress < 100.0
  {
    var level := Level(total);
    var pointsAtStartOfLevel := 5 * level * (level + 1);
    var pointsRequiredForNextLevel := 10 * (level + 1);
    var currentXp := total - pointsAtStartOfLevel;
    CumulativeClosedForm(level);
    var progress := Percent(currentXp, pointsRequiredForNextLevel);
    LevelingData(level, progress, total, currentXp, pointsRequiredForNextLevel)
  }

  /** The boundary levels: totals 0 and 9 are level 0, 10 is level 1, 125 is level 4. */
  lemma LevelExamples(total: nat)
    ensures total == 0 ==> Level(total) == 0
    ensures total == 9 ==> Level(total) == 0
    ensures total == 10 ==> Level(total) == 1
    ensures total == 125 ==> Level(total) == 4
  {
    if total == 0 {
      LevelUnique(total, 0);
    } else if total == 9 {
      LevelUnique(total, 0);
    } else if total == 10 {
      LevelUnique(total, 1);
    } else if total == 125 {
      LevelUnique(total, 4);
    }
  }

  /** Accepted papers A, A and B give 125 points: level 4, 25 of 50 XP. */
  lemma WorkedExample(total: nat)
    requires total == 125
    ensures FromTotal(total).level == 4
    ensures FromTotal(total).currentXp == 25 && FromTotal(total).requiredXp == 50
  {
    LevelUnique(total, 4);
  }

  /** The percentages of the boundary cases: 9 of 10 is 90, 25 of 50 is 50. */
  lemma PercentExamples()
    ensures Percent(0, 10) == 0.0 && Percent(9, 10) == 90.0
    ensures Percent(0, 20) == 0.0 && Percent(25, 50) == 50.0
  {
  }
}
