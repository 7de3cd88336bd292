/** The level curve: the cumulative cost of each level, and the level a
    point total reaches, computed as the source does through the square root
    of `25 + 20 * total` but with exact integer arithmetic. */
module LevelCurve {

  /** Points needed in all to reach `level`: going from level L to L + 1
      costs `10 * (L + 1)`, ten more than the level-up before it. */
  function Cumulative(level: nat): (points: nat)
    ensures points >= 10 * level
  {
    if level == 0 then 0 else Cumulative(level - 1) + 10 * level
  }

  /** The curve in closed form, `5 * L * (L + 1)`, as the source writes it. */
  lemma {:induction false} CumulativeClosedForm(level: nat)
    ensures Cumulative(level) == 5 * level * (level + 1)
  {
    if level > 0 {
      CumulativeClosedForm(level - 1);
      var l := level - 1;
      assert 5 * l * (l + 1) + 10 * level == 5 * level * (level + 1) by {
        assert 5 * l * (l + 1) == 5 * l * l + 5 * l;
        assert 5 * level * (level + 1) == 5 * l * l + 15 * l + 10;
      }
    }
  }

  lemma {:induction false} CumulativeMonotone(a: nat, b: nat)
    ensures a <= b ==> Cumulative(a) <= Cumulative(b)
    decreases if a <= b then b - a else 0
  {
    if a < b {
      CumulativeMonotone(a, b - 1);
    }
  }

  /** `x * x`, by the recurrence `(x + 1)^2 == x^2 + 2 * x + 1`. */
  function Square(x: nat): nat
  {
    if x == 0 then 0 else Square(x - 1) + 2 * x - 1
  }

  lemma {:induction false} SquareClosedForm(x: nat)
    ensures Square(x) == x * x
  {
    if x > 0 {
      SquareClosedForm(x - 1);
      assert (x - 1) * (x - 1) == x * x - 2 * x + 1;
    }
  }

  lemma {:induction false} SquareMonotone(a: nat, b: nat)
    requires a <= b
    ensures Square(a) <= Square(b)
    decreases b - a
  {
    if a < b {
      SquareMonotone(a, b - 1);
    }
  }

  /** The floor of the square root, exactly. */
  function ISqrt(n: nat): (r: nat)
    ensures Square(r) <= n < Square(r + 1)
  {
    if n == 0 then 0
    else
      var s := ISqrt(n - 1);
      if Square(s + 1) <= n then s + 1 else s
  }

  /** `(10 * level + 5)^2 == 20 * Cumulative(level) + 25`: the curve in the
      variable of the quadratic formula. */
  lemma CumulativeSquare(level: nat)
    ensures Square(10 * level + 5) == 20 * Cumulative(level) + 25
  {
    SquareClosedForm(10 * level + 5);
    CumulativeClosedForm(level);
    var q := level * level;
    assert (10 * level + 5) * (10 * level + 5) == 100 * q + 100 * level + 25;
    assert 5 * level * (level + 1) == 5 * q + 5 * level;
  }

  /** If `s` is the integer square root of `25 + 20 * total`, then
      `(s - 5) / 10` is the level whose bracket holds `total`. */
  lemma LevelBracket(total: nat, s: nat)
    requires Square(s) <= 25 + 20 * total < Square(s + 1)
    ensures s >= 5
    ensures Cumulative((s - 5) / 10) <= total < Cumulative((s - 5) / 10 + 1)
  {
    if s < 5 {
      SquareMonotone(s + 1, 5);
      assert false;
    }
    var level: nat := (s - 5) / 10;
    assert 10 * level + 5 <= s < 10 * level + 15;
    SquareMonotone(10 * level + 5, s);
    SquareMonotone(s + 1, 10 * level + 15);
    CumulativeSquare(level);
    CumulativeSquare(level + 1);
  }

  function Max(a: int, b: int): int
  {
    if a < b then b else a
  }

  /** `Math.max(0, Math.floor((-5 + Math.sqrt(25 + 20 * total)) / 10))`, over the integers:
      the floor of a real divided by 10 equals the floor of its integer floor divided by 10,
      so the real square root can be replaced by its floor. */
  function Level(total: nat): (level: nat)
    ensures Cumulative(level) <= total < Cumulative(level + 1)
  {
    var s := ISqrt(25 + 20 * total);
    LevelBracket(total, s);
    Max(0, (s - 5) / 10)
  }

  /** The level is the only one whose bracket holds the total. */
  lemma LevelUnique(total: nat, level: nat)
    requires Cumulative(level) <= total < Cumulative(level + 1)
    ensures Level(total) == level
  {
    var l := Level(total);
    if l < level {
      CumulativeMonotone(l + 1, level);
    } else if l > level {
      CumulativeMonotone(level + 1, l);
    }
  }

  /** The level is the largest one whose cumulative cost the total covers. */
  lemma LevelIsLargest(total: nat, level: nat)
    requires Cumulative(level) <= total
    ensures level <= Level(total)
  {
    CumulativeMonotone(Level(total) + 1, level);
  }

  /** More points never give a lower level. */
  lemma LevelMonotone(total1: nat, total2: nat)
    requires total1 <= total2
    ensures Level(total1) <= Level(total2)
  {
    LevelIsLargest(total2, Level(total1));
  }

  /** In exact real arithmetic the level is `floor((-5 + sqrt(25 + 20 * total)) / 10)`:
      `10 * level + 5 <= sqrt(25 + 20 * total) < 10 * level + 15`, squared. */
  lemma LevelIsSqrtFloor(total: nat)
    ensures var level := Level(total);
            (10 * level + 5) * (10 * level + 5) <= 25 + 20 * total < (10 * level + 15) * (10 * level + 15)
  {
    var level := Level(total);
    CumulativeSquare(level);
    CumulativeSquare(level + 1);
    SquareClosedForm(10 * level + 5);
    SquareClosedForm(10 * level + 15);
  }
}
