/**
 * What the main loop promises across ticks, proved about Game.Tick: the
 * invariant (difficulty follows the score, the mode flags agree, pipes come
 * in well-formed pairs, the ground scroll stays in range), the stickiness
 * of game over, how the score and high score may change, and the collision
 * and flight rules.
 */
module GameLemmas {
  import opened Geometry
  import opened Difficulty
  import opened Birds
  import opened Pipes
  import opened Scoring
  import opened Game

  // ---------------------------------------------------------------------------
  // Pairs of pipes

  /** A group ending in a lower and an upper pipe is paired exactly when those two form a pair and the rest is paired. */
  lemma PairedSnoc(ps: seq<Rect>, lower: Rect, upper: Rect, cfg: Config)
    ensures Paired(ps + [lower, upper], cfg) <==> PairShape(lower, upper, cfg) && Paired(ps, cfg)
  {
    var qs := ps + [lower, upper];
    assert qs[..|qs| - 2] == ps;
    assert qs[|qs| - 2] == lower && qs[|qs| - 1] == upper;
  }

  /** Scrolling moves both pipes of a pair alike, so the group stays a sequence of whole pairs. */
  lemma {:induction false} ScrollAllPaired(ps: seq<Rect>, speedHalves: int, mode: Rounding, cfg: Config)
    requires Paired(ps, cfg)
    ensures Paired(ScrollAll(ps, speedHalves, mode), cfg)
    decreases |ps|
  {
    if ps != [] {
      var n := |ps|;
      var init, lower, upper := ps[..n - 2], ps[n - 2], ps[n - 1];
      assert ps == init + [lower] + [upper];
      PairedSnoc(init, lower, upper, cfg);
      ScrollAllPaired(init, speedHalves, mode, cfg);
      var l', u' := Scrolled(lower, speedHalves, mode), Scrolled(upper, speedHalves, mode);
      ScrollAllSnoc(init + [lower], upper, speedHalves, mode);
      ScrollAllSnoc(init, lower, speedHalves, mode);
      var done := ScrollAll(init, speedHalves, mode);
      assert OnScreen(l') == OnScreen(u');
      if OnScreen(l') {
        assert ScrollAll(ps, speedHalves, mode) == done + [l', u'];
        PairedSnoc(done, l', u', cfg);
      } else {
        assert ScrollAll(ps, speedHalves, mode) == done;
      }
    }
  }

  /** A spawn appends one pair whose opening is the current pipe_gap, centred on mid-screen plus the random offset. */
  lemma SpawnPaired(s: GameState, input: Input, cfg: Config)
    requires InvCore(s, cfg) && input.Valid()
    ensures var r := SpawnPhase(s, input, cfg);
      && Paired(r.pipes, cfg)
      && (input.timeNow - s.lastPipe > PipeFrequency ==>
            |r.pipes| == |s.pipes| + 2 && r.pipes[..|s.pipes|] == s.pipes && r.lastPipe == input.timeNow
            && r.pipes[|s.pipes|].x == r.pipes[|s.pipes| + 1].x == ScreenWidth
            && r.pipes[|s.pipes|].Top() - r.pipes[|s.pipes| + 1].Bottom() == s.pipeGap
            && r.pipes[|s.pipes|].Top() + r.pipes[|s.pipes| + 1].Bottom() == 2 * (ScreenHeight / 2 + input.offset))
      && (input.timeNow - s.lastPipe <= PipeFrequency ==> r == s)
  {
    if input.timeNow - s.lastPipe > PipeFrequency {
      var y := ScreenHeight / 2 + input.offset;
      var lower := PipeRect(ScreenWidth, y, LowerPipe, s.pipeGap, cfg.pipeW, cfg.pipeH);
      var upper := PipeRect(ScreenWidth, y, UpperPipe, s.pipeGap, cfg.pipeW, cfg.pipeH);
      assert MinGap <= s.pipeGap <= StartGap && s.pipeGap % GapStep == 0 && s.pipeGap % 2 == 0;
      PairAroundCentre(ScreenWidth, y, s.pipeGap, cfg.pipeW, cfg.pipeH);
      assert PairShape(lower, upper, cfg);
      PairedSnoc(s.pipes, lower, upper, cfg);
      var r := SpawnPhase(s, input, cfg);
      assert r.pipes == s.pipes + [lower, upper];
      assert r.pipes[..|s.pipes|] == s.pipes;
    }
  }

  // ---------------------------------------------------------------------------
  // The phases

  /** The pass check keeps the difficulty in step with the score, moves nothing, and leaves nothing for a second check to do. */
  lemma PassPhaseSpec(s: GameState, cfg: Config)
    requires s.bird.rect.w >= 0
    requires s.speedHalves == SpeedHalves(s.score) && s.pipeGap == Gap(s.score)
    ensures var r := PassPhase(s);
      && r.speedHalves == SpeedHalves(r.score) && r.pipeGap == Gap(r.score)
      && (r.score == s.score || r.score == s.score + 1)
      && r == s.(passPipe := r.passPipe, score := r.score, speedHalves := r.speedHalves, pipeGap := r.pipeGap)
      && PassSettled(r)
  {
    if |s.pipes| > 0 {
      PassCheckSpec(s.passPipe, s.score, s.bird.rect, s.pipes[0]);
      PassCheckIdempotent(s.passPipe, s.score, s.bird.rect, s.pipes[0]);
    }
  }

  /** A settled pass check changes nothing. */
  lemma SettledStaysSettled(s: GameState)
    requires PassSettled(s) && s.bird.rect.w >= 0
    ensures PassPhase(s) == s
  {
  }

  /** The collision rules touch only the two flags. */
  lemma CollisionPhaseSpec(s: GameState)
    ensures var r := CollisionPhase(s);
      && r == s.(gameOver := r.gameOver, flying := r.flying)
      && (r.gameOver <==> s.gameOver || AnyOverlap(s.bird.rect, s.pipes) || s.bird.rect.Top() < 0 || s.bird.rect.Bottom() >= GroundY)
      && (r.flying <==> s.flying && s.bird.rect.Bottom() < GroundY)
  {
  }

  lemma GroundScrollRange(g: int, speedHalves: int)
    requires -GroundWrapHalves <= g <= 0 && StartSpeedHalves <= speedHalves <= MaxSpeedHalves
    ensures -GroundWrapHalves <= GroundScroll(g, speedHalves) <= 0
  {
  }

  /** The bird's update keeps the invariant: it never moves the bird sideways, so a settled pass check stays settled. */
  lemma BirdPhaseInv(s: GameState, input: Input, cfg: Config)
    requires Inv(s, cfg)
    ensures var s1 := s.(bird := BirdStep(s.bird, s.flying, s.gameOver, input.pressed));
      Inv(s1, cfg) && s1.bird.rect.x == s.bird.rect.x
  {
    var s1 := s.(bird := BirdStep(s.bird, s.flying, s.gameOver, input.pressed));
    BirdStepValid(s.bird, s.flying, s.gameOver, input.pressed);
    BirdStepPhysics(s.bird, s.flying, s.gameOver, input.pressed);
    if s.gameOver && |s.pipes| > 0 {
      PassCheckHorizontal(s.passPipe, s.score, s.bird.rect, s1.bird.rect, s.pipes[0], s.pipes[0]);
    }
  }

  /** The pass check keeps the invariant, settles, and does nothing once the game is over. */
  lemma PassPhaseInv(s: GameState, cfg: Config)
    requires Inv(s, cfg)
    ensures var r := PassPhase(s);
      Inv(r, cfg) && PassSettled(r) && (s.gameOver ==> r == s)
      && (r.score == s.score || r.score == s.score + 1)
      && r.pipes == s.pipes && r.bird == s.bird && r.highScore == s.highScore
  {
    PassPhaseSpec(s, cfg);
    if s.gameOver {
      SettledStaysSettled(s);
    }
  }

  /** The collision rules keep the core invariant and the settled pass check. */
  lemma CollisionPhaseInv(s: GameState, cfg: Config)
    requires InvCore(s, cfg) && PassSettled(s) && s.gameStarted
    ensures var r := CollisionPhase(s);
      InvCore(r, cfg) && PassSettled(r) && r.pipes == s.pipes && r.score == s.score && r.highScore == s.highScore
      && r.gameStarted
  {
    CollisionPhaseSpec(s);
  }

  /** Spawning and scrolling keep the core invariant. */
  lemma MovePhaseInv(s: GameState, input: Input, cfg: Config)
    requires InvCore(s, cfg) && input.Valid() && s.gameStarted
    ensures var r := ScrollPhase(SpawnPhase(s, input, cfg), cfg);
      InvCore(r, cfg) && r.gameOver == s.gameOver && r.score == s.score && r.highScore == s.highScore
  {
    var sp := SpawnPhase(s, input, cfg);
    SpawnPaired(s, input, cfg);
    ScrollAllPaired(sp.pipes, sp.speedHalves, cfg.rounding, cfg);
    GroundScrollRange(sp.groundHalves, sp.speedHalves);
  }

  /** The game-over screen raises the high score to the score and may reset the run. */
  lemma GameOverScreenInv(s: GameState, input: Input, cfg: Config)
    requires InvCore(s, cfg) && PassSettled(s) && s.gameOver
    ensures var r := GameOverScreen(s, input);
      && Inv(r, cfg)
      && r.highScore == Max(s.highScore, s.score)
      && (!input.restartClicked && !input.menuClicked ==> r == s.(highScore := r.highScore))
      && (input.restartClicked || input.menuClicked ==> !r.gameOver && r.score == 0 && r.pipes == [])
  {
    var s1 := if s.score > s.highScore then s.(highScore := s.score) else s;
    assert Inv(s1, cfg);
    var s2 := if input.restartClicked then ResetGame(s1.(gameOver := false)) else s1;
    assert Inv(s2, cfg);
  }

  /** The game-started branch keeps the invariant. */
  lemma PlayTickInv(s: GameState, input: Input, cfg: Config)
    requires Inv(s, cfg) && input.Valid() && s.gameStarted
    ensures Inv(PlayTick(s, input, cfg), cfg)
  {
    var s1 := s.(bird := BirdStep(s.bird, s.flying, s.gameOver, input.pressed));
    BirdPhaseInv(s, input, cfg);
    var s2 := PassPhase(s1);
    PassPhaseInv(s1, cfg);
    var s3 := CollisionPhase(s2);
    CollisionPhaseInv(s2, cfg);
    var s4 := if s3.flying && !s3.gameOver then ScrollPhase(SpawnPhase(s3, input, cfg), cfg) else s3;
    if s3.flying && !s3.gameOver {
      MovePhaseInv(s3, input, cfg);
      assert Inv(s4, cfg);
    } else if s4.gameOver {
      GameOverScreenInv(s4, input, cfg);
    }
  }

  /** The main-menu branch keeps the invariant. */
  lemma MenuTickInv(s: GameState, input: Input, cfg: Config)
    requires Inv(s, cfg) && !s.gameStarted
    ensures Inv(MenuTick(s, input), cfg)
  {
    var s1 := if input.birdClicked then ChangeBirdType(s) else s;
    var s2 := if input.themeClicked then ChangeTheme(s1) else s1;
    var s3 := if input.startClicked then ResetGame(s2.(gameStarted := true)) else s2;
    GroundScrollRange(s3.groundHalves, s3.speedHalves);
  }

  /** Every tick keeps the invariant. */
  lemma TickInv(s: GameState, input: Input, cfg: Config)
    requires Inv(s, cfg) && input.Valid()
    ensures Inv(Tick(s, input, cfg), cfg)
  {
    if s.gameStarted {
      PlayTickInv(s, input, cfg);
    } else {
      MenuTickInv(s, input, cfg);
    }
  }

  /** The invariant holds after any run of the loop from the start state. */
  lemma {:induction false} RunInv(s: GameState, inputs: seq<Input>, cfg: Config)
    requires Inv(s, cfg)
    requires forall i :: 0 <= i < |inputs| ==> inputs[i].Valid()
    ensures Inv(Run(s, inputs, cfg), cfg)
    decreases |inputs|
  {
    if inputs != [] && s.running {
      TickInv(s, inputs[0], cfg);
      RunInv(Tick(s, inputs[0], cfg), inputs[1..], cfg);
    }
  }

  // ---------------------------------------------------------------------------
  // Properties of one tick

  /**
   * Game over is sticky: without a restart or main-menu activation the
   * next tick keeps it, spawns and scrolls nothing, and changes neither the
   * score, the pass latch, the difficulty, the spawn timer, the ground
   * scroll nor the high score. The bird may still fall.
   */
  lemma GameOverSticky(s: GameState, input: Input, cfg: Config)
    requires Inv(s, cfg) && s.gameOver
    requires !input.restartClicked && !input.menuClicked
    ensures var t := Tick(s, input, cfg);
      && t.gameOver && t.gameStarted
      && t.pipes == s.pipes && t.score == s.score && t.passPipe == s.passPipe
      && t.speedHalves == s.speedHalves && t.pipeGap == s.pipeGap
      && t.lastPipe == s.lastPipe && t.groundHalves == s.groundHalves
      && t.highScore == s.highScore
      && t.bird.rect.x == s.bird.rect.x && t.bird.clicked == s.bird.clicked
  {
    var s1 := s.(bird := BirdStep(s.bird, s.flying, s.gameOver, input.pressed));
    BirdStepPhysics(s.bird, s.flying, s.gameOver, input.pressed);
    ClickedLatch(s.bird, s.flying, s.gameOver, input.pressed);
    if |s.pipes| > 0 {
      PassCheckHorizontal(s.passPipe, s.score, s.bird.rect, s1.bird.rect, s.pipes[0], s.pipes[0]);
    }
    SettledStaysSettled(s1);
  }

  /**
   * The score moves by at most one point a tick; it only ever drops to
   * zero, and only through the restart or main-menu buttons (start from the
   * menu resets a score that is already zero). It only rises while a game
   * is started.
   */
  lemma ScoreChange(s: GameState, input: Input, cfg: Config)
    requires Inv(s, cfg) && input.Valid()
    ensures var t := Tick(s, input, cfg);
      && (t.score == s.score || t.score == s.score + 1 || t.score == 0)
      && (t.score < s.score ==> input.restartClicked || input.menuClicked)
      && (t.score > s.score ==> s.gameStarted && !s.gameOver && |s.pipes| > 0)
  {
    if s.gameStarted {
      PlayTickScores(s, input, cfg);
    }
  }

  /** How the game-started branch changes the score and the high score, phase by phase. */
  lemma PlayTickScores(s: GameState, input: Input, cfg: Config)
    requires Inv(s, cfg) && input.Valid() && s.gameStarted
    ensures var t := PlayTick(s, input, cfg);
      && (t.score == s.score || t.score == s.score + 1 || t.score == 0)
      && (t.score < s.score ==> input.restartClicked || input.menuClicked)
      && (t.score > s.score ==> !s.gameOver && |s.pipes| > 0)
      && t.highScore >= s.highScore
  {
    var s1 := s.(bird := BirdStep(s.bird, s.flying, s.gameOver, input.pressed));
    BirdPhaseInv(s, input, cfg);
    var s2 := PassPhase(s1);
    PassPhaseInv(s1, cfg);
    assert s2.score > s.score ==> !s.gameOver && |s.pipes| > 0;
    var s3 := CollisionPhase(s2);
    CollisionPhaseInv(s2, cfg);
    var s4 := if s3.flying && !s3.gameOver then ScrollPhase(SpawnPhase(s3, input, cfg), cfg) else s3;
    if s3.flying && !s3.gameOver {
      MovePhaseInv(s3, input, cfg);
    }
    assert s4.score == s2.score && s4.highScore == s.highScore;
    if s4.gameOver {
      GameOverScreenInv(s4, input, cfg);
    }
  }

  /** The high score never falls, and whenever the game is over it is at least the score. */
  lemma HighScoreRises(s: GameState, input: Input, cfg: Config)
    requires Inv(s, cfg) && input.Valid()
    ensures var t := Tick(s, input, cfg);
      && t.highScore >= s.highScore
      && (t.gameOver ==> t.highScore >= t.score)
  {
    TickInv(s, input, cfg);
    if s.gameStarted {
      PlayTickScores(s, input, cfg);
    }
  }

  /** Across a whole run the high score never falls. */
  lemma {:induction false} RunHighScoreRises(s: GameState, inputs: seq<Input>, cfg: Config)
    requires Inv(s, cfg)
    requires forall i :: 0 <= i < |inputs| ==> inputs[i].Valid()
    ensures Run(s, inputs, cfg).highScore >= s.highScore
    decreases |inputs|
  {
    if inputs != [] && s.running {
      HighScoreRises(s, inputs[0], cfg);
      TickInv(s, inputs[0], cfg);
      RunHighScoreRises(Tick(s, inputs[0], cfg), inputs[1..], cfg);
    }
  }

  /**
   * Flight begins with a mouse-down event in a started game that is neither
   * flying nor over, and only then, so gravity waits for the first click.
   */
  lemma FlightStartsOnClick(s: GameState, input: Input, cfg: Config)
    requires Inv(s, cfg)
    ensures var t := Tick(s, input, cfg);
      !s.flying && t.flying ==> input.mouseDown && t.gameStarted && !t.gameOver
    ensures var m := if s.gameStarted then PlayTick(s, input, cfg) else MenuTick(s, input);
      input.mouseDown && m.gameStarted && !m.flying && !m.gameOver ==> Tick(s, input, cfg).flying
  {
  }

  /**
   * On the main menu the start button, and only it, starts a game; the new
   * game is a fresh run, not yet flying, with no pipes and score 0.
   */
  lemma MenuStart(s: GameState, input: Input, cfg: Config)
    requires Inv(s, cfg) && !s.gameStarted
    ensures var t := Tick(s, input, cfg);
      && (t.gameStarted <==> input.startClicked)
      && !t.gameOver && t.score == 0 && t.pipes == []
      && (input.startClicked && !input.mouseDown ==> !t.flying)
  {
  }

  /**
   * The collision rules, observed at the end of a tick of a started game
   * with no restart or menu activation: a bird whose bottom reached the
   * ground line has ended the run and stopped flying; one above the top of
   * the screen has ended the run; and one that overlaps any pipe as the
   * pipes stood before they scrolled has ended the run.
   */
  lemma CollisionsEndRun(s: GameState, input: Input, cfg: Config)
    requires Inv(s, cfg) && s.gameStarted
    requires !input.restartClicked && !input.menuClicked
    ensures var t := Tick(s, input, cfg);
      && (t.bird.rect.Bottom() >= GroundY ==> t.gameOver && !t.flying)
      && (t.bird.rect.Top() < 0 ==> t.gameOver)
      && (AnyOverlap(t.bird.rect, s.pipes) ==> t.gameOver)
  {
    var s1 := s.(bird := BirdStep(s.bird, s.flying, s.gameOver, input.pressed));
    PassPhaseSpec(s1, cfg);
    var s3 := CollisionPhase(PassPhase(s1));
    CollisionPhaseSpec(PassPhase(s1));
    var t := PlayTick(s, input, cfg);
    if s3.gameOver {
      assert t == GameOverScreen(s3, input);
    } else if s3.flying {
      assert t == ScrollPhase(SpawnPhase(s3, input, cfg), cfg);
    } else {
      assert t == s3;
    }
    assert t.bird == s3.bird && (s3.gameOver ==> t.gameOver) && (!s3.flying ==> !t.flying);
    assert Tick(s, input, cfg) == Events(t, input);
  }

  // ---------------------------------------------------------------------------
  // Reset, menu and cosmetics

  /**
   * reset_game empties the pipes, puts the bird's top-left corner at
   * (100, 468), clears flying and game over, zeroes the score and restores
   * the starting difficulty; it leaves the pass latch, the spawn timer, the
   * bird's velocity and latch, the high score, the mode and the cosmetic
   * indices alone, and doing it twice is doing it once.
   */
  lemma ResetContract(s: GameState, cfg: Config)
    requires Inv(s, cfg)
    ensures var r := ResetGame(s);
      && r.pipes == [] && r.bird.rect.x == BirdStartX && r.bird.rect.y == BirdStartY
      && !r.flying && !r.gameOver && r.score == 0
      && r.speedHalves == SpeedHalves(0) && r.pipeGap == Gap(0)
      && r.passPipe == s.passPipe && r.lastPipe == s.lastPipe
      && r.bird.velHalves == s.bird.velHalves && r.bird.clicked == s.bird.clicked
      && r.highScore == s.highScore && r.gameStarted == s.gameStarted
      && r.birdType == s.birdType && r.theme == s.theme
      && ResetGame(r) == r
      && (s.gameStarted ==> Inv(r, cfg))
  {
  }

  /** go_to_main_menu leaves play mode with a fresh run and keeps the invariant. */
  lemma MainMenuContract(s: GameState, cfg: Config)
    requires Inv(s, cfg)
    ensures var r := GoToMainMenu(s);
      && !r.gameStarted && !r.gameOver && !r.flying && r.score == 0 && r.pipes == []
      && r.highScore == s.highScore
      && Inv(r, cfg)
  {
  }

  /** Cycling a cosmetic index stays in [0, 4) and changes nothing else. */
  lemma CosmeticCycle(s: GameState, cfg: Config)
    requires Inv(s, cfg)
    ensures Inv(ChangeBirdType(s), cfg) && Inv(ChangeTheme(s), cfg)
    ensures ChangeBirdType(s) == s.(birdType := ChangeBirdType(s).birdType)
    ensures ChangeTheme(s) == s.(theme := ChangeTheme(s).theme)
  {
  }

  /**
   * Four presses of a cosmetic button visit all four bird types (themes),
   * each press moving to the next one, and give back the state they started
   * from.
   */
  lemma CosmeticCycleFour(s: GameState, cfg: Config)
    requires Inv(s, cfg)
    ensures var b1 := ChangeBirdType(s); var b2 := ChangeBirdType(b1); var b3 := ChangeBirdType(b2);
      && ChangeBirdType(b3) == s
      && (b1.birdType == s.birdType + 1 || (s.birdType == CosmeticCount - 1 && b1.birdType == 0))
      && Distinct4(s.birdType, b1.birdType, b2.birdType, b3.birdType)
    ensures var t1 := ChangeTheme(s); var t2 := ChangeTheme(t1); var t3 := ChangeTheme(t2);
      && ChangeTheme(t3) == s
      && (t1.theme == s.theme + 1 || (s.theme == CosmeticCount - 1 && t1.theme == 0))
      && Distinct4(s.theme, t1.theme, t2.theme, t3.theme)
  {
    CycleFour(s.birdType);
    CycleFour(s.theme);
  }

  predicate Distinct4(a: int, b: int, c: int, d: int) {
    a != b && a != c && a != d && b != c && b != d && c != d
  }

  lemma CycleFour(i: int)
    requires 0 <= i < CosmeticCount
    ensures var i1 := CycleIndex(i); var i2 := CycleIndex(i1); var i3 := CycleIndex(i2);
      CycleIndex(i3) == i && Distinct4(i, i1, i2, i3)
  {
  }
}
