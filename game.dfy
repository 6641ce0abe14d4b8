/**
 * The game's module-level state and one pass of the main loop
 * (flappy.py:38-48, 120-160, 270-312 and 407-492) as pure functions over a
 * GameState value. The class Flappy in module Engine performs the same
 * steps in place and is proved to agree with Tick; the lemmas here state
 * what the game promises about the state across ticks.
 *
 * The clock, random.randint, the mouse and the menu buttons are inputs to
 * a tick; image sizes and the Rect rounding rule are configuration.
 */
module Game {
  import opened Geometry
  import opened Difficulty
  import opened Birds
  import opened Pipes
  import opened Scoring

  const ScreenWidth := 864
  const ScreenHeight := 936
  const PipeFrequency := 1500     // milliseconds between pipe pairs
  const MaxOffset := 100          // random.randint(-100, 100)
  const BirdStartX := 100
  const BirdStartY := 468         // int(screen_height / 2)
  const GroundWrapHalves := 70    // the ground scroll wraps once its magnitude exceeds 35
  const CosmeticCount := 4        // four bird types and four themes

  /** Sizes of the bird and pipe images, and how a Rect stores a fractional x. */
  datatype Config = Config(birdW: int, birdH: int, pipeW: int, pipeH: int, rounding: Rounding)
  {
    predicate Valid() { birdW > 0 && birdH > 0 && pipeW > 0 && pipeH > 0 }
  }

  /**
   * What one tick reads from the outside: pygame.time.get_ticks(), the value
   * random.randint(-100, 100) would return, the left button's level, the
   * activations of the five on-screen buttons (a button activates while the
   * button is held over it), whether a MOUSEBUTTONDOWN and a QUIT event were
   * queued.
   */
  datatype Input = Input(
    timeNow: int, offset: int, pressed: bool,
    startClicked: bool, birdClicked: bool, themeClicked: bool,
    restartClicked: bool, menuClicked: bool,
    mouseDown: bool, quit: bool)
  {
    predicate Valid() {
      && -MaxOffset <= offset <= MaxOffset
      // a button activates only while the left button is down
      && (startClicked || birdClicked || themeClicked || restartClicked || menuClicked ==> pressed)
    }
  }

  /** The module globals of flappy.py plus the bird sprite and the pipe group (in group order). */
  datatype GameState = GameState(
    bird: BirdState,
    pipes: seq<Rect>,
    score: nat,
    highScore: int,
    speedHalves: int,          // scroll_speed, doubled
    pipeGap: int,
    flying: bool,
    gameOver: bool,
    gameStarted: bool,
    passPipe: bool,
    lastPipe: int,
    groundHalves: int,         // ground_scroll, doubled
    birdType: int,
    theme: int,
    running: bool)

  /** The state at program start (flappy.py:32-48, 71, 404); the stored high score and the clock are parameters. */
  function Initial(highScore: int, now: int, cfg: Config): GameState {
    GameState(
      BirdState(Rect(BirdStartX - cfg.birdW / 2, BirdStartY - cfg.birdH / 2, cfg.birdW, cfg.birdH), 0, false, 0, 0),
      [], 0, highScore, StartSpeedHalves, StartGap,
      false, false, false, false, now - PipeFrequency, 0, 0, 0, true)
  }

  // ---------------------------------------------------------------------------
  // The global-mutating helper functions

  /** update_difficulty (flappy.py:139-150). */
  function UpdateDifficulty(s: GameState): GameState {
    s.(speedHalves := SpeedHalves(s.score), pipeGap := Gap(s.score))
  }

  /** reset_game (flappy.py:120-131). */
  function ResetGame(s: GameState): GameState {
    s.(pipes := [],
       bird := s.bird.(rect := s.bird.rect.(x := BirdStartX, y := BirdStartY)),
       flying := false, gameOver := false, score := 0,
       speedHalves := StartSpeedHalves, pipeGap := StartGap)
  }

  /** go_to_main_menu (flappy.py:133-137). */
  function GoToMainMenu(s: GameState): GameState {
    ResetGame(s.(gameStarted := false, gameOver := false))
  }

  function CycleIndex(i: int): int { (i + 1) % CosmeticCount }

  /** change_bird_type, index part (flappy.py:152-154). */
  function ChangeBirdType(s: GameState): GameState { s.(birdType := CycleIndex(s.birdType)) }

  /** change_theme, index part (flappy.py:158-160). */
  function ChangeTheme(s: GameState): GameState { s.(theme := CycleIndex(s.theme)) }

  /** ground_scroll -= scroll_speed, back to 0 once its magnitude exceeds 35 (flappy.py:465-467, 479-481). */
  function GroundScroll(g: int, speedHalves: int): int {
    var moved := g - speedHalves;
    if Abs(moved) > GroundWrapHalves then 0 else moved
  }

  // ---------------------------------------------------------------------------
  // The phases of one tick while the game has started (flappy.py:416-471)

  /** The pass check against the oldest pipe; a point recomputes the difficulty (flappy.py:426-435). */
  function PassPhase(s: GameState): GameState {
    if |s.pipes| > 0 then
      var (p, sc) := PassCheck(s.passPipe, s.score, s.bird.rect, s.pipes[0]);
      if sc == s.score + 1 then UpdateDifficulty(s.(passPipe := p, score := sc))
      else s.(passPipe := p, score := sc)
    else s
  }

  /** groupcollide over the pipe group. */
  predicate AnyOverlap(r: Rect, ps: seq<Rect>) {
    exists i :: 0 <= i < |ps| && Overlaps(r, ps[i])
  }

  /** Pipe or ceiling ends the run; the ground ends it and stops flight (flappy.py:444-450). */
  function CollisionPhase(s: GameState): GameState {
    var s1 := if AnyOverlap(s.bird.rect, s.pipes) || s.bird.rect.Top() < 0 then s.(gameOver := true) else s;
    if s1.bird.rect.Bottom() >= GroundY then s1.(gameOver := true, flying := false) else s1
  }

  /** The timer-gated spawn of a lower and an upper pipe around a random centre (flappy.py:455-461). */
  function SpawnPhase(s: GameState, input: Input, cfg: Config): GameState {
    if input.timeNow - s.lastPipe > PipeFrequency then
      var y := ScreenHeight / 2 + input.offset;
      var lower := PipeRect(ScreenWidth, y, LowerPipe, s.pipeGap, cfg.pipeW, cfg.pipeH);
      var upper := PipeRect(ScreenWidth, y, UpperPipe, s.pipeGap, cfg.pipeW, cfg.pipeH);
      s.(pipes := s.pipes + [lower, upper], lastPipe := input.timeNow)
    else s
  }

  /** pipe_group.update() and the ground scroll (flappy.py:464-467). */
  function ScrollPhase(s: GameState, cfg: Config): GameState {
    s.(pipes := ScrollAll(s.pipes, s.speedHalves, cfg.rounding),
       groundHalves := GroundScroll(s.groundHalves, s.speedHalves))
  }

  /** draw_game_over's state changes: the high score, then the restart and menu buttons (flappy.py:274-276, 307-312). */
  function GameOverScreen(s: GameState, input: Input): GameState {
    var s1 := if s.score > s.highScore then s.(highScore := s.score) else s;
    var s2 := if input.restartClicked then ResetGame(s1.(gameOver := false)) else s1;
    if input.menuClicked then GoToMainMenu(s2) else s2
  }

  /** The game_started branch of the loop body (flappy.py:416-471). */
  function PlayTick(s: GameState, input: Input, cfg: Config): GameState {
    var s1 := s.(bird := BirdStep(s.bird, s.flying, s.gameOver, input.pressed));
    var s2 := PassPhase(s1);
    var s3 := CollisionPhase(s2);
    var s4 := if s3.flying && !s3.gameOver then ScrollPhase(SpawnPhase(s3, input, cfg), cfg) else s3;
    if s4.gameOver then GameOverScreen(s4, input) else s4
  }

  /** The main-menu branch: the three buttons, then the ground scroll (flappy.py:472-481, 378-385). */
  function MenuTick(s: GameState, input: Input): GameState {
    var s1 := if input.birdClicked then ChangeBirdType(s) else s;
    var s2 := if input.themeClicked then ChangeTheme(s1) else s1;
    var s3 := if input.startClicked then ResetGame(s2.(gameStarted := true)) else s2;
    s3.(groundHalves := GroundScroll(s3.groundHalves, s3.speedHalves))
  }

  /** The event loop: QUIT stops the loop, a click in a started, grounded, live game starts flight (flappy.py:484-490). */
  function Events(s: GameState, input: Input): GameState {
    var s1 := if input.quit then s.(running := false) else s;
    if input.mouseDown && s1.gameStarted && !s1.flying && !s1.gameOver then s1.(flying := true) else s1
  }

  /** One pass of `while run` (flappy.py:409-492). */
  function Tick(s: GameState, input: Input, cfg: Config): GameState {
    Events(if s.gameStarted then PlayTick(s, input, cfg) else MenuTick(s, input), input)
  }

  /** The loop over a sequence of ticks' inputs, stopping once `run` is false. */
  function Run(s: GameState, inputs: seq<Input>, cfg: Config): GameState
    decreases |inputs|
  {
    if inputs == [] || !s.running then s
    else Run(Tick(s, inputs[0], cfg), inputs[1..], cfg)
  }

  // ---------------------------------------------------------------------------
  // The invariant

  /** A lower pipe followed by its upper pipe, as one spawn built them and scrolling kept them. */
  predicate PairShape(lower: Rect, upper: Rect, cfg: Config) {
    && lower.x == upper.x
    && lower.w == upper.w == cfg.pipeW
    && lower.h == upper.h == cfg.pipeH
    && MinGap <= lower.Top() - upper.Bottom() <= StartGap
    && (lower.Top() - upper.Bottom()) % GapStep == 0
    && 2 * (BirdStartY - MaxOffset) <= lower.Top() + upper.Bottom() <= 2 * (BirdStartY + MaxOffset)
  }

  /** The pipe group is a sequence of whole pairs, each lower pipe first. */
  predicate Paired(ps: seq<Rect>, cfg: Config)
    decreases |ps|
  {
    if ps == [] then true
    else |ps| >= 2 && PairShape(ps[|ps| - 2], ps[|ps| - 1], cfg) && Paired(ps[..|ps| - 2], cfg)
  }

  /** The pass check has nothing left to do against the current positions. */
  predicate PassSettled(s: GameState) {
    |s.pipes| > 0 ==> PassCheck(s.passPipe, s.score, s.bird.rect, s.pipes[0]) == (s.passPipe, s.score)
  }

  /** The invariant every state reached by the loop satisfies. */
  predicate Inv(s: GameState, cfg: Config) {
    InvCore(s, cfg) && (s.gameOver ==> s.highScore >= s.score && PassSettled(s))
  }

  /** The part of the invariant that holds between the phases of a tick as well. */
  predicate InvCore(s: GameState, cfg: Config) {
    && cfg.Valid()
    && BirdValid(s.bird)
    && s.bird.rect.w == cfg.birdW && s.bird.rect.h == cfg.birdH
    // difficulty is a function of the score alone
    && s.speedHalves == SpeedHalves(s.score) && s.pipeGap == Gap(s.score)
    && -GroundWrapHalves <= s.groundHalves <= 0
    && 0 <= s.birdType < CosmeticCount && 0 <= s.theme < CosmeticCount
    // the mode flags
    && (s.flying ==> s.gameStarted)
    && (s.gameOver ==> s.gameStarted)
    && (!s.gameStarted ==> s.pipes == [] && s.score == 0)
    && Paired(s.pipes, cfg)
  }

  lemma InitialInv(highScore: int, now: int, cfg: Config)
    requires cfg.Valid()
    ensures Inv(Initial(highScore, now, cfg), cfg)
    ensures Initial(highScore, now, cfg).running
  {
  }
}
