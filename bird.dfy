/**
 * The player's bird (class Bird, flappy.py:190-248). Its per-tick update
 * is specified by the pure function BirdStep over a BirdState snapshot;
 * the class Bird holds the same fields and its Update method is proved to
 * perform exactly that step. Velocity is in halves of a pixel per tick.
 * Image loading and rotation are rendering and are not modelled.
 */
module Birds {
  import opened Geometry

  const GroundY := 768
  const GravityHalves := 1       // vel += 0.5
  const MaxFallHalves := 16      // vel is capped at 8
  const JumpHalves := -20        // a jump sets vel = -10
  const FrameTicks := 5          // the frame advances once counter exceeds 5
  const FrameCount := 3          // three images per bird type

  datatype BirdState = BirdState(rect: Rect, velHalves: int, clicked: bool, counter: int, index: int)

  /** The ranges the bird's own fields stay in across every update. */
  predicate BirdValid(b: BirdState) {
    JumpHalves <= b.velHalves <= MaxFallHalves
    && 0 <= b.counter <= FrameTicks
    && 0 <= b.index < FrameCount
  }

  /** Gravity (flappy.py:226-231): only while flying; moves only while above the ground line. */
  function Gravity(b: BirdState, flying: bool): BirdState {
    if !flying then b
    else
      var v := Min(b.velHalves + GravityHalves, MaxFallHalves);
      var y := if b.rect.Bottom() < GroundY then b.rect.y + TruncHalf(v) else b.rect.y;
      b.(velHalves := v, rect := b.rect.(y := y))
  }

  /** The press that fires a jump this tick: the button is down, was not down before, and the run is alive. */
  predicate Jumps(b: BirdState, gameOver: bool, pressed: bool) {
    !gameOver && pressed && !b.clicked
  }

  /** Jump latch and animation counter (flappy.py:233-243); nothing happens once the game is over. */
  function Controls(b: BirdState, gameOver: bool, pressed: bool): BirdState {
    if gameOver then b
    else
      var b1 := if pressed && !b.clicked then b.(clicked := true, velHalves := JumpHalves) else b;
      var b2 := if !pressed then b1.(clicked := false) else b1;
      if b2.counter + 1 > FrameTicks then b2.(counter := 0, index := (b2.index + 1) % FrameCount)
      else b2.(counter := b2.counter + 1)
  }

  /** One call of Bird.update: gravity first, then the controls. */
  function BirdStep(b: BirdState, flying: bool, gameOver: bool, pressed: bool): BirdState {
    Controls(Gravity(b, flying), gameOver, pressed)
  }

  /** The update keeps velocity in [-10, 8], the counter in [0, 5] and the frame index in [0, 3). */
  lemma BirdStepValid(b: BirdState, flying: bool, gameOver: bool, pressed: bool)
    requires BirdValid(b)
    ensures BirdValid(BirdStep(b, flying, gameOver, pressed))
  {
  }

  /**
   * What one update does to the physics: the bird never moves sideways or
   * changes size; a jump sets the velocity to -10; otherwise, while flying,
   * the velocity grows by 0.5 up to 8 and the bird moves down by int(vel)
   * only if it was above the ground line; while not flying and not jumping
   * neither velocity nor height change.
   */
  lemma BirdStepPhysics(b: BirdState, flying: bool, gameOver: bool, pressed: bool)
    ensures var r := BirdStep(b, flying, gameOver, pressed);
      && r.rect.x == b.rect.x && r.rect.w == b.rect.w && r.rect.h == b.rect.h
      && (Jumps(b, gameOver, pressed) ==> r.velHalves == JumpHalves)
      && (!Jumps(b, gameOver, pressed) && flying ==> r.velHalves == Min(b.velHalves + 1, MaxFallHalves))
      && (!Jumps(b, gameOver, pressed) && !flying ==> r.velHalves == b.velHalves)
      && (!flying || b.rect.Bottom() >= GroundY ==> r.rect.y == b.rect.y)
      && (flying && b.rect.Bottom() < GroundY ==> r.rect.y == b.rect.y + TruncHalf(Min(b.velHalves + 1, MaxFallHalves)))
  {
  }

  /**
   * The latch is edge-triggered: while the run is alive, after an update
   * `clicked` mirrors the button level, and once the game is over it is
   * left alone, so only a release re-arms the jump.
   */
  lemma ClickedLatch(b: BirdState, flying: bool, gameOver: bool, pressed: bool)
    ensures var r := BirdStep(b, flying, gameOver, pressed);
      && (!gameOver ==> r.clicked == pressed)
      && (gameOver ==> r.clicked == b.clicked && r.counter == b.counter && r.index == b.index)
  {
  }

  /**
   * Holding the button for n ticks with the run alive: the bird after the
   * n updates and how many of them fired a jump.
   */
  function Hold(b: BirdState, flying: bool, n: nat): (BirdState, nat)
    decreases n
  {
    if n == 0 then (b, 0)
    else
      var rest := Hold(BirdStep(b, flying, false, true), flying, n - 1);
      (rest.0, rest.1 + if Jumps(b, false, true) then 1 else 0)
  }

  /** Holding the button across any number of ticks jumps at most once, and exactly once if it was released before. */
  lemma {:induction false} HoldJumpsOnce(b: BirdState, flying: bool, n: nat)
    requires n >= 1
    ensures Hold(b, flying, n).1 == if b.clicked then 0 else 1
    ensures Hold(b, flying, n).0.clicked
    decreases n
  {
    var next := BirdStep(b, flying, false, true);
    assert next.clicked;
    if n > 1 {
      HoldJumpsOnce(next, flying, n - 1);
    }
  }

  /** The bird after one update per element of `presses` (the button level of each tick) while the run is alive. */
  function Animate(b: BirdState, flying: bool, presses: seq<bool>): BirdState
    decreases |presses|
  {
    if presses == [] then b
    else Animate(BirdStep(b, flying, false, presses[0]), flying, presses[1..])
  }

  /**
   * The animation (flappy.py:240-243): while the run is alive each update
   * advances the counter by one, and the update that takes it past 5 resets
   * it to 0 and shows the next of the three frames. From counter 0, five
   * updates keep the frame and the sixth advances it by exactly one.
   */
  lemma {:induction false} AnimationCycle(b: BirdState, flying: bool, presses: seq<bool>)
    requires 0 <= b.counter <= FrameTicks && b.counter + |presses| <= FrameTicks + 1
    ensures var r := Animate(b, flying, presses);
      && (b.counter + |presses| <= FrameTicks ==> r.counter == b.counter + |presses| && r.index == b.index)
      && (b.counter + |presses| == FrameTicks + 1 ==> r.counter == 0 && r.index == (b.index + 1) % FrameCount)
    decreases |presses|
  {
    if presses != [] {
      var next := BirdStep(b, flying, false, presses[0]);
      if b.counter == FrameTicks {
        assert |presses| == 1 && presses[1..] == [];
        assert next.counter == 0 && next.index == (b.index + 1) % FrameCount;
        assert Animate(b, flying, presses) == Animate(next, flying, []) == next;
      } else {
        assert next.counter == b.counter + 1 && next.index == b.index;
        AnimationCycle(next, flying, presses[1..]);
      }
    }
  }

  /** The bird sprite: position, velocity, jump latch and animation counter, updated in place each tick. */
  class Bird {
    var rect: Rect
    var velHalves: int
    var clicked: bool
    var counter: int
    var index: int

    function State(): BirdState
      reads this
    {
      BirdState(rect, velHalves, clicked, counter, index)
    }

    /** Bird(x, y): an image of size w by h centred on (x, y), at rest (flappy.py:191-200). */
    constructor (x: int, y: int, w: nat, h: nat)
      ensures State() == BirdState(Rect(x - w / 2, y - h / 2, w, h), 0, false, 0, 0)
      ensures BirdValid(State())
    {
      rect := Rect(x - w / 2, y - h / 2, w, h);
      velHalves := 0;
      clicked := false;
      counter := 0;
      index := 0;
    }

    /** Bird.update (flappy.py:224-243), with the mouse button level as a parameter. */
    method Update(flying: bool, gameOver: bool, pressed: bool)
      modifies this
      ensures State() == BirdStep(old(State()), flying, gameOver, pressed)
    {
      if flying {
        velHalves := velHalves + GravityHalves;
        if velHalves > MaxFallHalves {
          velHalves := MaxFallHalves;
        }
        if rect.Bottom() < GroundY {
          rect := rect.(y := rect.y + TruncHalf(velHalves));
        }
      }
      if !gameOver {
        if pressed && !clicked {
          clicked := true;
          velHalves := JumpHalves;
        }
        if !pressed {
          clicked := false;
        }
        counter := counter + 1;
        if counter > FrameTicks {
          counter := 0;
          index := (index + 1) % FrameCount;
        }
      }
    }
  }
}
