/**
 * Pass scoring (flappy.py:426-435): a latch `pass_pipe` that is set when the
 * bird is strictly inside the horizontal span of the oldest pipe and that
 * scores one point, and clears, once the bird's left edge is past that
 * pipe's right edge.
 */
module Scoring {
  import opened Geometry

  /** The bird's left and right edges are strictly between the pipe's. */
  predicate Inside(bird: Rect, pipe: Rect) {
    bird.Left() > pipe.Left() && bird.Right() < pipe.Right()
  }

  /** The bird's left edge is right of the pipe's right edge. */
  predicate Past(bird: Rect, pipe: Rect) {
    bird.Left() > pipe.Right()
  }

  /** The two tests of one tick against the oldest pipe, on (pass_pipe, score). */
  function PassCheck(pass: bool, score: nat, bird: Rect, pipe: Rect): (bool, nat) {
    var latched := if Inside(bird, pipe) && !pass then true else pass;
    if latched && Past(bird, pipe) then (false, score + 1) else (latched, score)
  }

  /**
   * The score rises by exactly one, and the latch clears, exactly when the
   * latch was already set and the bird is past the pipe; a bird of
   * non-negative width cannot be inside and past at once, so the latch
   * never sets and scores in the same tick. The latch sets only from Inside.
   */
  lemma PassCheckSpec(pass: bool, score: nat, bird: Rect, pipe: Rect)
    requires bird.w >= 0
    ensures var (p, s) := PassCheck(pass, score, bird, pipe);
      && (s == score + 1 <==> pass && Past(bird, pipe))
      && (s != score + 1 ==> s == score)
      && (s == score + 1 ==> !p)
      && (p && !pass ==> Inside(bird, pipe))
  {
  }

  /** With the bird and pipe in the same horizontal place, a second check changes nothing. */
  lemma PassCheckIdempotent(pass: bool, score: nat, bird: Rect, pipe: Rect)
    requires bird.w >= 0
    ensures var (p, s) := PassCheck(pass, score, bird, pipe);
      PassCheck(p, s, bird, pipe) == (p, s)
  {
  }

  /** The check reads only horizontal positions and widths. */
  lemma PassCheckHorizontal(pass: bool, score: nat, bird: Rect, bird': Rect, pipe: Rect, pipe': Rect)
    requires bird.x == bird'.x && bird.w == bird'.w && pipe.x == pipe'.x && pipe.w == pipe'.w
    ensures PassCheck(pass, score, bird, pipe) == PassCheck(pass, score, bird', pipe')
  {
  }

  /**
   * The bird's rectangle on consecutive ticks against one pipe: the final
   * latch and score.
   */
  function Trajectory(pass: bool, score: nat, birds: seq<Rect>, pipe: Rect): (bool, nat)
    decreases |birds|
  {
    if birds == [] then (pass, score)
    else
      var (p, s) := PassCheck(pass, score, birds[0], pipe);
      Trajectory(p, s, birds[1..], pipe)
  }

  /**
   * How many times a trajectory enters the pipe's span: ticks with the bird
   * strictly inside whose previous tick was not. `prevInside` says whether
   * the tick before the trajectory was inside.
   */
  function Entries(birds: seq<Rect>, pipe: Rect, prevInside: bool): nat
    decreases |birds|
  {
    if birds == [] then 0
    else
      var now := Inside(birds[0], pipe);
      (if now && !prevInside then 1 else 0) + Entries(birds[1..], pipe, now)
  }

  /**
   * No double scoring: across any trajectory the score never falls, and
   * the points gained plus a latch left set never exceed the latch (or a
   * stay inside the span) carried in at the start plus the number of
   * entries into the span. However many ticks the bird spends inside, one
   * entry yields at most one point.
   */
  lemma {:induction false} TrajectoryScoresOncePerPass(pass: bool, score: nat, birds: seq<Rect>, pipe: Rect, prevInside: bool)
    requires forall i :: 0 <= i < |birds| ==> birds[i].w >= 0
    ensures var (p, s) := Trajectory(pass, score, birds, pipe);
      && s >= score
      && (s - score) + (if p then 1 else 0) <= (if pass || prevInside then 1 else 0) + Entries(birds, pipe, prevInside)
    decreases |birds|
  {
    if birds != [] {
      var (p, s) := PassCheck(pass, score, birds[0], pipe);
      PassCheckSpec(pass, score, birds[0], pipe);
      TrajectoryScoresOncePerPass(p, s, birds[1..], pipe, Inside(birds[0], pipe));
    }
  }

  /**
   * A pass as the game sees it: some ticks inside the span, then ticks with
   * the bird past the pipe. Starting with a clear latch it scores exactly
   * one point and leaves the latch clear.
   */
  lemma OnePassScoresOne(score: nat, inside: seq<Rect>, past: seq<Rect>, pipe: Rect)
    requires |inside| >= 1 && |past| >= 1
    requires forall i :: 0 <= i < |inside| ==> Inside(inside[i], pipe) && inside[i].w >= 0
    requires forall i :: 0 <= i < |past| ==> Past(past[i], pipe) && past[i].w >= 0
    ensures Trajectory(false, score, inside + past, pipe) == (false, score + 1)
  {
    StayInside(true, score, inside, pipe);
    assert Trajectory(false, score, inside, pipe) == (true, score) by {
      assert PassCheck(false, score, inside[0], pipe) == (true, score);
      assert inside == [inside[0]] + inside[1..];
      TrajectoryAppend(false, score, [inside[0]], inside[1..], pipe);
      StayInside(true, score, inside[1..], pipe);
    }
    TrajectoryAppend(false, score, inside, past, pipe);
    assert PassCheck(true, score, past[0], pipe) == (false, score + 1);
    StayPast(score + 1, past[1..], pipe);
    assert past == [past[0]] + past[1..];
    TrajectoryAppend(true, score, [past[0]], past[1..], pipe);
  }

  /** With the latch set, ticks inside the span change nothing. */
  lemma {:induction false} StayInside(pass: bool, score: nat, birds: seq<Rect>, pipe: Rect)
    requires pass
    requires forall i :: 0 <= i < |birds| ==> Inside(birds[i], pipe) && birds[i].w >= 0
    ensures Trajectory(pass, score, birds, pipe) == (pass, score)
    decreases |birds|
  {
    if birds != [] {
      StayInside(pass, score, birds[1..], pipe);
    }
  }

  /** With the latch clear, ticks past the pipe change nothing. */
  lemma {:induction false} StayPast(score: nat, birds: seq<Rect>, pipe: Rect)
    requires forall i :: 0 <= i < |birds| ==> Past(birds[i], pipe) && birds[i].w >= 0
    ensures Trajectory(false, score, birds, pipe) == (false, score)
    decreases |birds|
  {
    if birds != [] {
      StayPast(score, birds[1..], pipe);
    }
  }

  /** A trajectory in two parts is the second part run from where the first one ends. */
  lemma {:induction false} TrajectoryAppend(pass: bool, score: nat, xs: seq<Rect>, ys: seq<Rect>, pipe: Rect)
    ensures var (p, s) := Trajectory(pass, score, xs, pipe);
      Trajectory(pass, score, xs + ys, pipe) == Trajectory(p, s, ys, pipe)
    decreases |xs|
  {
    if xs != [] {
      var (p, s) := PassCheck(pass, score, xs[0], pipe);
      assert (xs + ys)[0] == xs[0] && (xs + ys)[1..] == xs[1..] + ys;
      TrajectoryAppend(p, s, xs[1..], ys, pipe);
    } else {
      assert xs + ys == ys;
    }
  }

  /** A trajectory that is never inside the span adds nothing once the latch is clear. */
  lemma NoInsideNoScore(score: nat, birds: seq<Rect>, pipe: Rect)
    requires forall i :: 0 <= i < |birds| ==> birds[i].w >= 0 && !Inside(birds[i], pipe)
    ensures Trajectory(false, score, birds, pipe) == (false, score)
  {
    TrajectoryScoresOncePerPass(false, score, birds, pipe, false);
    NoEntries(birds, pipe, false);
  }

  lemma {:induction false} NoEntries(birds: seq<Rect>, pipe: Rect, prevInside: bool)
    requires forall i :: 0 <= i < |birds| ==> !Inside(birds[i], pipe)
    ensures Entries(birds, pipe, prevInside) == 0
    decreases |birds|
  {
    if birds != [] {
      NoEntries(birds[1..], pipe, false);
    }
  }
}
