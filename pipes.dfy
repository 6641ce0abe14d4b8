/**
 * Pipes (class Pipe, flappy.py:174-188) and the pipe group's per-tick
 * scroll. A pair is two pipes built around one gap centre: the upper one
 * (position 1) ends int(gap/2) above the centre, the lower one (position -1)
 * starts int(gap/2) below it. Every tick each pipe moves left by the scroll
 * speed and leaves the group once its right edge is left of the screen.
 */
module Pipes {
  import opened Geometry

  const UpperPipe := 1
  const LowerPipe := -1

  /** The rectangle Pipe(x, y, position) takes with a w by h image and the current pipe_gap. */
  function PipeRect(x: int, y: int, position: int, gap: int, w: int, h: int): (r: Rect)
    ensures r.w == w && r.h == h
  {
    if position == UpperPipe then Rect(x, y - TruncHalf(gap) - h, w, h)
    else if position == LowerPipe then Rect(x, y + TruncHalf(gap), w, h)
    else Rect(0, 0, w, h)
  }

  /**
   * A pair built around centre y shares one x, and the opening between the
   * upper pipe's bottom and the lower pipe's top is centred on y and is
   * exactly the gap when the gap is even (every gap the difficulty
   * controller produces is).
   */
  lemma PairAroundCentre(x: int, y: int, gap: int, w: int, h: int)
    requires gap >= 0
    ensures var upper, lower := PipeRect(x, y, UpperPipe, gap, w, h), PipeRect(x, y, LowerPipe, gap, w, h);
      && upper.x == lower.x == x
      && upper.Bottom() + lower.Top() == 2 * y
      && gap - 1 <= lower.Top() - upper.Bottom() <= gap
      && (gap % 2 == 0 ==> lower.Top() - upper.Bottom() == gap)
  {
  }

  /** Pipe.update's move: x -= scroll_speed, stored by the Rect's rounding rule. */
  function Scrolled(r: Rect, speedHalves: int, mode: Rounding): Rect {
    r.(x := StoreHalf(2 * r.x - speedHalves, mode))
  }

  /** A pipe stays in the group while its right edge is not left of the screen. */
  predicate OnScreen(r: Rect) {
    !(r.Right() < 0)
  }

  /** One pygame Group.update over the pipes, in group order: each one scrolls, and the ones that left the screen are dropped. */
  function ScrollAll(ps: seq<Rect>, speedHalves: int, mode: Rounding): (r: seq<Rect>)
    decreases |ps|
  {
    if ps == [] then []
    else
      var last := Scrolled(ps[|ps| - 1], speedHalves, mode);
      ScrollAll(ps[..|ps| - 1], speedHalves, mode) + if OnScreen(last) then [last] else []
  }

  /**
   * Every pipe of the result is a scrolled pipe of the input, and a
   * scrolled pipe is in the result exactly when its right edge is not
   * negative. ScrollAllKeepsOrder states the order and multiplicity.
   */
  lemma {:induction false} ScrollAllSpec(ps: seq<Rect>, speedHalves: int, mode: Rounding)
    ensures |ScrollAll(ps, speedHalves, mode)| <= |ps|
    ensures forall q :: q in ScrollAll(ps, speedHalves, mode) ==> OnScreen(q)
    ensures forall q :: q in ScrollAll(ps, speedHalves, mode) <==>
      exists i :: 0 <= i < |ps| && q == Scrolled(ps[i], speedHalves, mode) && OnScreen(q)
    decreases |ps|
  {
    if ps != [] {
      var init := ps[..|ps| - 1];
      ScrollAllSpec(init, speedHalves, mode);
      forall q | q in ScrollAll(ps, speedHalves, mode)
        ensures exists i :: 0 <= i < |ps| && q == Scrolled(ps[i], speedHalves, mode) && OnScreen(q)
      {
        if q in ScrollAll(init, speedHalves, mode) {
          var i :| 0 <= i < |init| && q == Scrolled(init[i], speedHalves, mode) && OnScreen(q);
          assert ps[i] == init[i];
        } else {
          assert ps[|ps| - 1] == ps[|ps| - 1];
        }
      }
      forall q | exists i :: 0 <= i < |ps| && q == Scrolled(ps[i], speedHalves, mode) && OnScreen(q)
        ensures q in ScrollAll(ps, speedHalves, mode)
      {
        var i :| 0 <= i < |ps| && q == Scrolled(ps[i], speedHalves, mode) && OnScreen(q);
        if i < |ps| - 1 {
          assert init[i] == ps[i];
        }
      }
    }
  }

  /** The positions in the group of the pipes that survive a scroll, in group order. */
  function SurvivorIndices(ps: seq<Rect>, speedHalves: int, mode: Rounding): seq<nat>
    decreases |ps|
  {
    if ps == [] then []
    else
      var n := |ps| - 1;
      SurvivorIndices(ps[..n], speedHalves, mode) + if OnScreen(Scrolled(ps[n], speedHalves, mode)) then [n] else []
  }

  /**
   * The survivors keep their order and appear once each: the result is the
   * scrolled pipes at a strictly increasing sequence of positions, and that
   * sequence holds every position whose scrolled pipe is on screen. So the
   * oldest pipe still on screen comes first.
   */
  lemma {:induction false} ScrollAllKeepsOrder(ps: seq<Rect>, speedHalves: int, mode: Rounding)
    ensures var r, idx := ScrollAll(ps, speedHalves, mode), SurvivorIndices(ps, speedHalves, mode);
      && |idx| == |r|
      && (forall k :: 0 <= k < |idx| ==> idx[k] < |ps| && r[k] == Scrolled(ps[idx[k]], speedHalves, mode))
      && (forall a, b :: 0 <= a < b < |idx| ==> idx[a] < idx[b])
      && (forall i :: 0 <= i < |ps| && OnScreen(Scrolled(ps[i], speedHalves, mode)) ==> i in idx)
    decreases |ps|
  {
    if ps != [] {
      var n := |ps| - 1;
      var init := ps[..n];
      ScrollAllKeepsOrder(init, speedHalves, mode);
      var idx0 := SurvivorIndices(init, speedHalves, mode);
      assert forall k :: 0 <= k < |idx0| ==> idx0[k] < n && init[idx0[k]] == ps[idx0[k]];
      forall i | 0 <= i < |ps| && OnScreen(Scrolled(ps[i], speedHalves, mode))
        ensures i in SurvivorIndices(ps, speedHalves, mode)
      {
        if i < n {
          assert init[i] == ps[i];
          assert i in idx0;
        }
      }
    }
  }

  /** Scrolling a group with one more pipe at its end scrolls the rest and then that pipe. */
  lemma ScrollAllSnoc(ps: seq<Rect>, r: Rect, speedHalves: int, mode: Rounding)
    ensures var r' := Scrolled(r, speedHalves, mode);
      ScrollAll(ps + [r], speedHalves, mode) == ScrollAll(ps, speedHalves, mode) + if OnScreen(r') then [r'] else []
  {
    assert (ps + [r])[..|ps + [r]| - 1] == ps;
  }

  /** Scrolling one more pipe of a group: the prefix's result, then that pipe if it stays on screen. */
  lemma ScrollAllPrefix(ps: seq<Rect>, i: nat, speedHalves: int, mode: Rounding)
    requires i < |ps|
    ensures var r := Scrolled(ps[i], speedHalves, mode);
      ScrollAll(ps[..i + 1], speedHalves, mode) == ScrollAll(ps[..i], speedHalves, mode) + if OnScreen(r) then [r] else []
  {
    assert ps[..i + 1] == ps[..i] + [ps[i]];
    ScrollAllSnoc(ps[..i], ps[i], speedHalves, mode);
  }

  /** At speeds of 4 to 7 pixels a pipe moves left by at least 4 pixels and at most 7 every tick, whatever the rounding. */
  lemma ScrollDistance(r: Rect, speedHalves: int, mode: Rounding)
    requires 8 <= speedHalves <= 14
    ensures 4 <= r.x - Scrolled(r, speedHalves, mode).x <= 7
  {
    StoreHalfWithinHalfPixel(2 * r.x - speedHalves, mode);
  }

  /** A pipe sprite whose rectangle Update moves in place. */
  class Pipe {
    var rect: Rect

    /** Pipe(x, y, position) with the gap and image size read at construction (flappy.py:175-183). */
    constructor (x: int, y: int, position: int, gap: int, w: int, h: int)
      ensures rect == PipeRect(x, y, position, gap, w, h)
    {
      rect := Rect(0, 0, w, h);
      if position == UpperPipe {
        rect := Rect(x, y - TruncHalf(gap) - h, w, h);
      } else if position == LowerPipe {
        rect := Rect(x, y + TruncHalf(gap), w, h);
      }
    }

    /**
     * Pipe.update (flappy.py:185-188). The pipe's removal from its group
     * (kill) is reported as `alive == false`, and the group drops it.
     */
    method Update(speedHalves: int, mode: Rounding) returns (alive: bool)
      modifies this
      ensures rect == Scrolled(old(rect), speedHalves, mode)
      ensures alive <==> OnScreen(rect)
    {
      rect := rect.(x := StoreHalf(2 * rect.x - speedHalves, mode));
      alive := !(rect.Right() < 0);
    }
  }
}
