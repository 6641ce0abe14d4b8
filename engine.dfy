/**
 * The game as flappy.py runs it: module-level variables updated in place by
 * the helper functions and the main loop, a Bird sprite, and a pipe group
 * whose pipes are added, moved and killed in place. Every method is proved
 * to change the state exactly as the matching function of module Game says,
 * so the properties proved in GameLemmas hold of this imperative game.
 */
module Engine {
  import opened Geometry
  import opened Difficulty
  import opened Birds
  import opened Pipes
  import opened Scoring
  import Game

  /** The rectangles of a group's pipes, in group order. */
  function Rects(ps: seq<Pipe>): seq<Rect>
    reads ps
  {
    seq(|ps|, i requires 0 <= i < |ps| reads ps => ps[i].rect)
  }

  lemma RectsSnoc(ps: seq<Pipe>, p: Pipe)
    ensures Rects(ps + [p]) == Rects(ps) + [p.rect]
  {
    assert forall i :: 0 <= i < |ps| ==> (ps + [p])[i] == ps[i];
  }

  /**
   * pygame.sprite.groupcollide(bird_group, pipe_group, False, False) as
   * used at flappy.py:444: whether the bird's rectangle overlaps the
   * rectangle of any pipe in the group.
   */
  method HitsAnyPipe(bird: Rect, pipes: seq<Pipe>) returns (hit: bool)
    ensures hit <==> Game.AnyOverlap(bird, Rects(pipes))
  {
    hit := false;
    var i := 0;
    while i < |pipes| && !hit
      invariant 0 <= i <= |pipes|
      invariant hit <==> exists j :: 0 <= j < i && Overlaps(bird, pipes[j].rect)
    {
      hit := Overlaps(bird, pipes[i].rect);
      i := i + 1;
    }
    assert forall j :: 0 <= j < |pipes| ==> Rects(pipes)[j] == pipes[j].rect;
  }

  /** No pipe object is in the sequence twice. */
  ghost predicate Distinct(ps: seq<Pipe>) {
    forall i, j :: 0 <= i < j < |ps| ==> ps[i] != ps[j]
  }

  /**
   * Group.update over pipes (flappy.py:185-188, 464): every pipe of the
   * group moves in place, then the pipes that reported they left the
   * screen are dropped from the group, the others keeping their order.
   */
  method UpdateGroup(group: seq<Pipe>, speedHalves: int, mode: Rounding, ghost before: seq<Rect>)
      returns (kept: seq<Pipe>)
    requires Distinct(group)
    requires |before| == |group| && forall j :: 0 <= j < |group| ==> group[j].rect == before[j]
    modifies set p | p in group
    ensures Distinct(kept)
    ensures forall p :: p in kept ==> p in group
    ensures var after := ScrollAll(before, speedHalves, mode);
      |kept| == |after| && forall k :: 0 <= k < |kept| ==> kept[k].rect == after[k]
  {
    var alive := MoveAll(group, speedHalves, mode);
    kept := Survivors(group, alive, speedHalves, mode, before);
  }

  /** The pipes of a moved group that reported they are still on screen, in group order. */
  method Survivors(group: seq<Pipe>, alive: seq<bool>, speedHalves: int, mode: Rounding, ghost before: seq<Rect>)
      returns (kept: seq<Pipe>)
    requires Distinct(group)
    requires |before| == |group| == |alive|
    requires forall j :: 0 <= j < |group| ==>
      group[j].rect == Scrolled(before[j], speedHalves, mode) && (alive[j] <==> OnScreen(group[j].rect))
    ensures Distinct(kept)
    ensures forall p :: p in kept ==> p in group
    ensures var after := ScrollAll(before, speedHalves, mode);
      |kept| == |after| && forall k :: 0 <= k < |kept| ==> kept[k].rect == after[k]
  {
    kept := [];
    ghost var idx: seq<nat> := [];
    ghost var scrolled: seq<Rect> := [];
    var i := 0;
    while i < |group|
      invariant 0 <= i <= |group|
      invariant |idx| == |kept| == |scrolled|
      invariant forall k :: 0 <= k < |kept| ==> idx[k] < i && kept[k] == group[idx[k]]
      invariant forall a, b :: 0 <= a < b < |kept| ==> idx[a] < idx[b]
      invariant scrolled == ScrollAll(before[..i], speedHalves, mode)
      invariant forall k :: 0 <= k < |kept| ==> kept[k].rect == scrolled[k]
    {
      ScrollAllPrefix(before, i, speedHalves, mode);
      if alive[i] {
        kept := kept + [group[i]];
        idx := idx + [i];
        scrolled := scrolled + [group[i].rect];
      }
      i := i + 1;
    }
    assert before[..i] == before;
  }

  /** Calls update on every pipe of the group in order, collecting which ones stay alive. */
  method MoveAll(group: seq<Pipe>, speedHalves: int, mode: Rounding) returns (alive: seq<bool>)
    requires Distinct(group)
    modifies set p | p in group
    ensures |alive| == |group|
    ensures forall j :: 0 <= j < |group| ==>
      group[j].rect == Scrolled(old(group[j].rect), speedHalves, mode) && (alive[j] <==> OnScreen(group[j].rect))
  {
    alive := [];
    var i := 0;
    while i < |group|
      invariant 0 <= i <= |group| && |alive| == i
      invariant forall j :: 0 <= j < i ==>
        group[j].rect == Scrolled(old(group[j].rect), speedHalves, mode) && (alive[j] <==> OnScreen(group[j].rect))
      invariant forall j :: i <= j < |group| ==> group[j].rect == old(group[j].rect)
    {
      var a := group[i].Update(speedHalves, mode);
      alive := alive + [a];
      i := i + 1;
    }
  }

  /** The module state of flappy.py, the bird sprite and the pipe group. */
  class Flappy {
    const bird: Bird
    var pipes: seq<Pipe>          // pipe_group, in the order pipes were added
    var score: nat
    var highScore: int
    var scrollSpeedHalves: int    // scroll_speed, doubled
    var pipeGap: int
    var flying: bool
    var gameOver: bool
    var gameStarted: bool
    var passPipe: bool
    var lastPipe: int
    var groundHalves: int         // ground_scroll, doubled
    var currentBirdType: int
    var currentTheme: int
    var running: bool             // run

    /** No pipe object is in the group twice. */
    ghost predicate Valid()
      reads this
    {
      Distinct(pipes)
    }

    /** The value of the whole game state. */
    function State(): Game.GameState
      reads this, bird, pipes
    {
      Game.GameState(bird.State(), Rects(pipes), score, highScore, scrollSpeedHalves, pipeGap,
        flying, gameOver, gameStarted, passPipe, lastPipe, groundHalves,
        currentBirdType, currentTheme, running)
    }

    /** Program start: the globals' initial values, the stored high score and the clock passed in. */
    constructor (storedHighScore: int, now: int, cfg: Game.Config)
      requires cfg.birdW >= 0 && cfg.birdH >= 0
      ensures Valid() && State() == Game.Initial(storedHighScore, now, cfg)
    {
      bird := new Bird(Game.BirdStartX, Game.BirdStartY, cfg.birdW, cfg.birdH);
      pipes := [];
      score := 0;
      highScore := storedHighScore;
      scrollSpeedHalves := StartSpeedHalves;
      pipeGap := StartGap;
      flying := false;
      gameOver := false;
      gameStarted := false;
      passPipe := false;
      lastPipe := now - Game.PipeFrequency;
      groundHalves := 0;
      currentBirdType := 0;
      currentTheme := 0;
      running := true;
    }

    /** reset_game (flappy.py:120-131). */
    method ResetGame()
      modifies this, bird
      ensures Valid() && State() == Game.ResetGame(old(State())) && pipes == []
    {
      pipes := [];
      bird.rect := bird.rect.(x := Game.BirdStartX, y := Game.BirdStartY);
      flying := false;
      gameOver := false;
      score := 0;
      scrollSpeedHalves := StartSpeedHalves;
      pipeGap := StartGap;
      assert Rects(pipes) == [];
    }

    /** go_to_main_menu (flappy.py:133-137). */
    method GoToMainMenu()
      modifies this, bird
      ensures Valid() && State() == Game.GoToMainMenu(old(State())) && pipes == []
    {
      gameStarted := false;
      gameOver := false;
      ResetGame();
    }

    /** update_difficulty (flappy.py:139-150). */
    method UpdateDifficulty()
      modifies this
      ensures pipes == old(pipes)
      ensures State() == Game.UpdateDifficulty(old(State()))
    {
      scrollSpeedHalves := Min(StartSpeedHalves + score / DifficultyInterval, MaxSpeedHalves);
      pipeGap := Max(StartGap - score / DifficultyInterval * GapStep, MinGap);
    }

    /** change_bird_type, index part (flappy.py:152-154). */
    method ChangeBirdType()
      modifies this
      ensures pipes == old(pipes)
      ensures State() == Game.ChangeBirdType(old(State()))
    {
      currentBirdType := (currentBirdType + 1) % Game.CosmeticCount;
    }

    /** change_theme, index part (flappy.py:158-160). */
    method ChangeTheme()
      modifies this
      ensures pipes == old(pipes)
      ensures State() == Game.ChangeTheme(old(State()))
    {
      currentTheme := (currentTheme + 1) % Game.CosmeticCount;
    }

    /** The pass check against the oldest pipe (flappy.py:426-435). */
    method CheckPass()
      modifies this
      ensures pipes == old(pipes)
      ensures State() == Game.PassPhase(old(State()))
    {
      if |pipes| > 0 {
        var first := pipes[0].rect;
        if bird.rect.Left() > first.Left() && bird.rect.Right() < first.Right() && !passPipe {
          passPipe := true;
        }
        if passPipe && bird.rect.Left() > first.Right() {
          score := score + 1;
          passPipe := false;
          UpdateDifficulty();
        }
      }
    }

    /** The pipe, ceiling and ground collisions (flappy.py:444-450). */
    method CheckCollisions()
      modifies this
      ensures pipes == old(pipes)
      ensures State() == Game.CollisionPhase(old(State()))
    {
      var hit := HitsAnyPipe(bird.rect, pipes);
      if hit || bird.rect.Top() < 0 {
        gameOver := true;
      }
      if bird.rect.Bottom() >= GroundY {
        gameOver := true;
        flying := false;
      }
    }

    /** The timer-gated spawn of a pipe pair (flappy.py:455-461). */
    method SpawnPipes(input: Game.Input, cfg: Game.Config)
      requires Valid()
      modifies this
      ensures Valid() && State() == Game.SpawnPhase(old(State()), input, cfg)
      ensures forall p :: p in pipes ==> p in old(pipes) || fresh(p)
    {
      var timeNow := input.timeNow;
      if timeNow - lastPipe > Game.PipeFrequency {
        var pipeHeight := input.offset;
        var btmPipe := new Pipe(Game.ScreenWidth, Game.ScreenHeight / 2 + pipeHeight, LowerPipe, pipeGap, cfg.pipeW, cfg.pipeH);
        var topPipe := new Pipe(Game.ScreenWidth, Game.ScreenHeight / 2 + pipeHeight, UpperPipe, pipeGap, cfg.pipeW, cfg.pipeH);
        RectsSnoc(pipes, btmPipe);
        RectsSnoc(pipes + [btmPipe], topPipe);
        pipes := pipes + [btmPipe] + [topPipe];
        assert pipes == old(pipes) + [btmPipe, topPipe];
        lastPipe := timeNow;
      }
    }

    /** pipe_group.update() (flappy.py:464) on the game's pipe group. */
    method UpdatePipes(mode: Rounding)
      requires Valid()
      modifies this, set p | p in pipes
      ensures Valid()
      ensures State() == old(State()).(pipes := ScrollAll(old(State()).pipes, scrollSpeedHalves, mode))
      ensures forall p :: p in pipes ==> p in old(pipes)
    {
      ghost var before := Rects(pipes);
      pipes := UpdateGroup(pipes, scrollSpeedHalves, mode, before);
      assert Rects(pipes) == ScrollAll(before, scrollSpeedHalves, mode);
    }

    /** ground_scroll -= scroll_speed, wrapping past 35 (flappy.py:465-467 and 479-481). */
    method ScrollGround()
      modifies this
      ensures pipes == old(pipes)
      ensures State() == old(State()).(groundHalves := Game.GroundScroll(old(groundHalves), old(scrollSpeedHalves)))
    {
      groundHalves := groundHalves - scrollSpeedHalves;
      if Abs(groundHalves) > Game.GroundWrapHalves {
        groundHalves := 0;
      }
    }

    /** draw_game_over's state changes: high score and the two buttons (flappy.py:274-276, 307-312). */
    method DrawGameOver(input: Game.Input)
      requires Valid()
      modifies this, bird
      ensures Valid() && State() == Game.GameOverScreen(old(State()), input)
      ensures pipes == old(pipes) || pipes == []
    {
      if score > highScore {
        highScore := score;
      }
      if input.restartClicked {
        gameOver := false;
        ResetGame();
      }
      if input.menuClicked {
        GoToMainMenu();
      }
    }

    /** The main menu's buttons (flappy.py:373-387); reports whether start was activated. */
    method DrawMainMenu(input: Game.Input) returns (start: bool)
      modifies this
      ensures pipes == old(pipes)
      ensures start == input.startClicked
      ensures State() == (var s1 := if input.birdClicked then Game.ChangeBirdType(old(State())) else old(State());
                          if input.themeClicked then Game.ChangeTheme(s1) else s1)
    {
      if input.birdClicked {
        ChangeBirdType();
      }
      if input.themeClicked {
        ChangeTheme();
      }
      start := input.startClicked;
    }

    /** The event loop (flappy.py:484-490). */
    method HandleEvents(input: Game.Input)
      modifies this
      ensures pipes == old(pipes)
      ensures State() == Game.Events(old(State()), input)
    {
      if input.quit {
        running := false;
      }
      if input.mouseDown && gameStarted && !flying && !gameOver {
        flying := true;
      }
    }

    /** Spawning, pipe_group.update() and the ground scroll of a live flight (flappy.py:453-467). */
    method Move(input: Game.Input, cfg: Game.Config)
      requires Valid()
      modifies this, set p | p in pipes
      ensures Valid() && State() == Game.ScrollPhase(Game.SpawnPhase(old(State()), input, cfg), cfg)
      ensures forall p :: p in pipes ==> p in old(pipes) || fresh(p)
    {
      SpawnPipes(input, cfg);
      UpdatePipes(cfg.rounding);
      ScrollGround();
    }

    /** The bird's update, the pass check and the collision rules (flappy.py:419-450). */
    method Advance(pressed: bool)
      requires Valid()
      modifies this, bird
      ensures Valid() && pipes == old(pipes)
      ensures State() == Game.CollisionPhase(Game.PassPhase(
        old(State()).(bird := BirdStep(old(State()).bird, old(flying), old(gameOver), pressed))))
    {
      ghost var s0 := State();
      bird.Update(flying, gameOver, pressed);
      ghost var s1 := State();
      assert s1 == s0.(bird := BirdStep(s0.bird, s0.flying, s0.gameOver, pressed));
      CheckPass();
      assert State() == Game.PassPhase(s1);
      CheckCollisions();
    }

    /** The game_started branch of the loop body (flappy.py:416-471). */
    method Play(input: Game.Input, cfg: Game.Config)
      requires Valid()
      modifies this, bird, set p | p in pipes
      ensures Valid() && State() == Game.PlayTick(old(State()), input, cfg)
      ensures forall p :: p in pipes ==> p in old(pipes) || fresh(p)
    {
      Advance(input.pressed);
      if flying && !gameOver {
        Move(input, cfg);
      }
      if gameOver {
        DrawGameOver(input);
      }
    }

    /** The main-menu branch of the loop body (flappy.py:472-481). */
    method Menu(input: Game.Input)
      requires Valid()
      modifies this, bird
      ensures Valid() && State() == Game.MenuTick(old(State()), input)
      ensures pipes == old(pipes) || pipes == []
    {
      var start := DrawMainMenu(input);
      if start {
        gameStarted := true;
        ResetGame();
      }
      ScrollGround();
    }

    /** One pass of the main loop (flappy.py:409-492). */
    method Tick(input: Game.Input, cfg: Game.Config)
      requires Valid()
      modifies this, bird, set p | p in pipes
      ensures Valid() && State() == Game.Tick(old(State()), input, cfg)
      ensures forall p :: p in pipes ==> p in old(pipes) || fresh(p)
    {
      if gameStarted {
        Play(input, cfg);
      } else {
        Menu(input);
      }
      HandleEvents(input);
    }

    /** `while run`: ticks over the given inputs until a QUIT stops the loop or the inputs run out. */
    method Run(inputs: seq<Game.Input>, cfg: Game.Config)
      requires Valid()
      modifies this, bird, set p | p in pipes
      ensures Valid() && State() == Game.Run(old(State()), inputs, cfg)
    {
      var i := 0;
      while i < |inputs| && running
        invariant 0 <= i <= |inputs|
        invariant Valid()
        invariant forall p :: p in pipes ==> p in old(pipes) || fresh(p)
        invariant Game.Run(old(State()), inputs, cfg) == Game.Run(State(), inputs[i..], cfg)
      {
        assert inputs[i..][1..] == inputs[i + 1..];
        Tick(inputs[i], cfg);
        i := i + 1;
      }
    }
  }
}
