/**
  The level curve of app/routes.py: a skill reaches level L once its total
  XP is at least 100 * (L - 1)^2.  `calculate_level` inverts that curve with
  a floating-point square root; this module uses the integer square root,
  which is what the float expression means for every XP the store can hold.
 */
module Levels {

  /** Cumulative XP at which `level` is reached: 100 * (level - 1)^2. */
  function Threshold(level: int): int {
    100 * ((level - 1) * (level - 1))
  }

  /** Squaring is monotone on naturals. */
  lemma SquareMonotone(a: nat, b: nat)
    requires a <= b
    ensures a * a <= b * b
  {
    calc {
      a * a;
    <= { MulMonotone(a, a, b); }
      a * b;
    <= { MulMonotone(b, a, b); }
      b * b;
    }
  }

  lemma MulMonotone(k: nat, a: nat, b: nat)
    requires a <= b
    ensures k * a <= k * b
  {
  }

  /** The threshold curve is strictly increasing from level 1 on. */
  lemma ThresholdStrictlyIncreasing(a: int, b: int)
    requires 1 <= a < b
    ensures Threshold(a) < Threshold(b)
  {
    SquareMonotone(a - 1, b - 2);
    assert (b - 1) * (b - 1) == (b - 2) * (b - 2) + 2 * (b - 2) + 1;
  }

  lemma ThresholdMonotone(a: int, b: int)
    requires 1 <= a <= b
    ensures Threshold(a) <= Threshold(b)
  {
    if a < b {
      ThresholdStrictlyIncreasing(a, b);
    }
  }

  /** Integer square root: the largest r with r * r <= n. */
  function Isqrt(n: nat): (r: nat)
    ensures r * r <= n < (r + 1) * (r + 1)
  {
    if n == 0 then 0
    else
      var s := Isqrt(n / 4);
      IsqrtStep(n, s);
      if (2 * s + 1) * (2 * s + 1) <= n then 2 * s + 1 else 2 * s
  }

  /** From the root of n / 4, twice that root brackets the root of n. */
  lemma IsqrtStep(n: nat, s: nat)
    requires s * s <= n / 4 < (s + 1) * (s + 1)
    ensures (2 * s) * (2 * s) <= n < (2 * s + 2) * (2 * s + 2)
  {
    var q := n / 4;
    assert 4 * q <= n < 4 * q + 4;
    assert (2 * s) * (2 * s) == 4 * (s * s);
    assert (2 * s + 2) * (2 * s + 2) == 4 * ((s + 1) * (s + 1));
    assert q + 1 <= (s + 1) * (s + 1);
  }

  /**
    calculate_level: level 1 below 100 XP, otherwise floor(sqrt(xp / 100)) + 1.
    The result is the level whose threshold band contains the XP.
   */
  function CalculateLevel(totalXp: int): (level: int)
    ensures level >= 1
    ensures totalXp < 100 ==> level == 1
  {
    if totalXp < 100 then 1 else Isqrt(totalXp / 100) + 1
  }

  /** The computed level is the one whose threshold band contains the XP. */
  lemma LevelInBand(totalXp: int)
    requires totalXp >= 0
    ensures Threshold(CalculateLevel(totalXp)) <= totalXp < Threshold(CalculateLevel(totalXp) + 1)
  {
    if totalXp >= 100 {
      LevelBand(totalXp, Isqrt(totalXp / 100));
    }
  }

  lemma LevelBand(totalXp: nat, s: nat)
    requires s * s <= totalXp / 100 < (s + 1) * (s + 1)
    ensures Threshold(s + 1) <= totalXp < Threshold(s + 2)
  {
    var q := totalXp / 100;
    assert 100 * q <= totalXp < 100 * q + 100;
    assert q + 1 <= (s + 1) * (s + 1);
    assert 100 * (q + 1) <= 100 * ((s + 1) * (s + 1));
  }

  /** A level whose band contains the XP is the computed level. */
  lemma {:induction false} LevelUnique(totalXp: int, level: int)
    requires level >= 1
    requires Threshold(level) <= totalXp < Threshold(level + 1)
    ensures CalculateLevel(totalXp) == level
  {
    ThresholdMonotone(1, level);
    assert Threshold(1) == 0;
    var m := CalculateLevel(totalXp);
    LevelInBand(totalXp);
    if level < m {
      ThresholdMonotone(level + 1, m);
    } else if m < level {
      ThresholdMonotone(m + 1, level);
    }
  }

  /**
    The floor formula agrees with the doc-comment curve: a level L >= 1 is
    reached at this XP exactly when L is at most the computed level, so the
    computed level is the largest L with 100 * (L - 1)^2 <= xp.
   */
  lemma {:induction false} LevelIsLargestReached(totalXp: int, level: int)
    requires totalXp >= 0 && level >= 1
    ensures Threshold(level) <= totalXp <==> level <= CalculateLevel(totalXp)
  {
    var m := CalculateLevel(totalXp);
    LevelInBand(totalXp);
    if level <= m {
      ThresholdMonotone(level, m);
    } else {
      ThresholdMonotone(m + 1, level);
      assert totalXp < Threshold(level);
    }
  }

  /** More XP never means a lower level. */
  lemma {:induction false} LevelMonotone(xp1: int, xp2: int)
    requires xp1 <= xp2
    ensures CalculateLevel(xp1) <= CalculateLevel(xp2)
  {
    if xp1 >= 0 {
      LevelIsLargestReached(xp2, CalculateLevel(xp1));
    }
  }

  /**
    xp_for_next_level: the total XP at which the level after `currentLevel`
    is reached.  For a real level it is exactly the first XP value that
    calculate_level maps to the next level.
   */
  function XpForNextLevel(currentLevel: int): (xp: int)
    ensures xp == Threshold(currentLevel + 1)
    ensures currentLevel >= 1 ==>
      && CalculateLevel(xp) == currentLevel + 1
      && CalculateLevel(xp - 1) == currentLevel
  {
    var nextLevel := currentLevel + 1;
    var xp := 100 * ((nextLevel - 1) * (nextLevel - 1));
    if currentLevel >= 1 then
      ThresholdStrictlyIncreasing(currentLevel, nextLevel);
      ThresholdStrictlyIncreasing(nextLevel, nextLevel + 1);
      LevelUnique(xp, nextLevel);
      LevelUnique(xp - 1, currentLevel);
      xp
    else
      xp
  }

  /** The worked example of the tests: 150 XP is level 2; one day's cap, 1440 XP, is level 4. */
  lemma LevelExamples()
    ensures CalculateLevel(0) == 1 && CalculateLevel(99) == 1
    ensures CalculateLevel(100) == 2 && CalculateLevel(150) == 2
    ensures CalculateLevel(1440) == 4
  {
    LevelUnique(100, 2);
    LevelUnique(150, 2);
    LevelUnique(1440, 4);
  }
}
