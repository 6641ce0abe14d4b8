/**
 * The difficulty controller (flappy.py:139-150): every five points the
 * scroll speed rises by half a pixel per tick, up to 7, and the pipe gap
 * shrinks by 10 pixels, down to 120. Speeds are in halves of a pixel.
 */
module Difficulty {
  import opened Geometry

  const DifficultyInterval := 5
  const StartSpeedHalves := 8    // scroll_speed = 4
  const MaxSpeedHalves := 14     // max_scroll_speed = 7
  const StartGap := 180
  const MinGap := 120
  const GapStep := 10

  function Level(score: nat): nat { score / DifficultyInterval }

  /** scroll_speed, doubled: min(4 + 0.5 * level, 7). */
  function SpeedHalves(score: nat): (s: int)
    ensures StartSpeedHalves <= s <= MaxSpeedHalves
  {
    Min(StartSpeedHalves + Level(score), MaxSpeedHalves)
  }

  /** pipe_gap: max(180 - 10 * level, 120), always a whole multiple of 10. */
  function Gap(score: nat): (g: int)
    ensures MinGap <= g <= StartGap
    ensures g % GapStep == 0 && g % 2 == 0
  {
    Max(StartGap - GapStep * Level(score), MinGap)
  }

  /** A higher score never makes the game slower or the gap wider. */
  lemma DifficultyMonotone(a: nat, b: nat)
    requires a <= b
    ensures SpeedHalves(a) <= SpeedHalves(b)
    ensures Gap(a) >= Gap(b)
  {
    assert Level(a) <= Level(b) by { LevelMonotone(a, b); }
  }

  lemma LevelMonotone(a: nat, b: nat)
    requires a <= b
    ensures Level(a) <= Level(b)
  {
    var qa, ra := a / 5, a % 5;
    var qb, rb := b / 5, b % 5;
    assert a == 5 * qa + ra && b == 5 * qb + rb;
  }

  /** One more point changes the difficulty by at most one step, and only on a multiple of five. */
  lemma DifficultyStep(score: nat)
    ensures 0 <= SpeedHalves(score + 1) - SpeedHalves(score) <= 1
    ensures 0 <= Gap(score) - Gap(score + 1) <= GapStep
    ensures (score + 1) % DifficultyInterval != 0 ==>
      SpeedHalves(score + 1) == SpeedHalves(score) && Gap(score + 1) == Gap(score)
  {
    if (score + 1) % 5 == 0 {
      assert Level(score + 1) == Level(score) + 1;
    } else {
      assert Level(score + 1) == Level(score);
    }
  }

  /** Both controls saturate exactly from score 30 on. */
  lemma Saturation(score: nat)
    ensures SpeedHalves(score) == MaxSpeedHalves <==> score >= 30
    ensures Gap(score) == MinGap <==> score >= 30
  {
    if score >= 30 {
      LevelMonotone(30, score);
    } else {
      LevelMonotone(score, 29);
    }
  }

  /** Reference points: (4, 180), (4.5, 170), and saturation at (7, 120). */
  lemma DifficultyTable()
    ensures SpeedHalves(0) == 8 && Gap(0) == 180
    ensures SpeedHalves(5) == 9 && Gap(5) == 170
    ensures SpeedHalves(30) == 14 && Gap(30) == 120
    ensures SpeedHalves(100) == 14 && Gap(100) == 120
  {
  }
}
