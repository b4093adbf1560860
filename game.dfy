/**
 * The game controller: owns a player and a Daruma, runs one guarded update
 * per frame (move, update, catch check, win check, only while the game is
 * not over), and rebuilds everything when the restart key is pressed after
 * the game has ended.
 */
module GameController {
  import opened Screen
  import opened PlayerEntity
  import opened DarumaEntity

  /** The goal line, and where the player spawns. */
  const GOAL_X: int := WIDTH - 150
  const SPAWN_X: int := 50
  const SPAWN_Y: int := HEIGHT / 2

  /** The value of a game object. */
  datatype GameState = GameState(player: PlayerState, daruma: DarumaState, gameOver: bool, win: bool)

  /**
   * Everything one iteration of the main loop consumes: whether the restart
   * key went down, the arrow keys, the milliseconds the clock reported, the
   * draws a restart would make and the draws a Daruma update would make.
   */
  datatype Frame = Frame(restart: bool, keys: Keys, dtMs: nat, resetDraws: Draws, tickDraws: Draws)

  /** Frame time in seconds from the clock's milliseconds. */
  function Elapsed(dtMs: nat): (dt: real)
    ensures 0.0 <= dt && dt * 1000.0 == dtMs as real
  {
    dtMs as real / 1000.0
  }

  /**
   * The game invariant: the player is inside the field and on the step grid,
   * the Daruma is consistent, a win is a game over at the goal, a running
   * game has not reached the goal and has a blue player, and a lost game has
   * a grey player.
   */
  predicate Inv(g: GameState) {
    InField(g.player) && OnGrid(g.player) && Consistent(g.daruma)
    && (g.win ==> g.gameOver && CheckGoal(g.player, GOAL_X))
    && (!g.gameOver ==> !CheckGoal(g.player, GOAL_X) && g.player.colour == BLUE)
    && (g.gameOver && !g.win ==> g.player.colour == GREY)
  }

  /** A freshly constructed game: what both the constructor and reset produce. */
  function NewGame(w: Draws): (g: GameState)
    ensures g.player.x == 50 && g.player.y == 300 && !g.player.moving && g.player.colour == BLUE
    ensures g.daruma.facingBack && g.daruma.turnTimer == 0.0
    ensures !g.gameOver && !g.win
    ensures DrawsInRange(w) ==> Inv(g)
  {
    GameState(NewPlayer(SPAWN_X, SPAWN_Y), NewDaruma(w), false, false)
  }

  /** With the goal line at 650 the player has reached it iff its left edge is at 620 or beyond. */
  lemma GoalThreshold(p: PlayerState)
    ensures CheckGoal(p, GOAL_X) <==> p.x >= 620
  {
  }

  /** The catch check: moving while the Daruma faces the player ends the game. */
  function CaughtChecked(g: GameState): (r: GameState)
    ensures r.gameOver <==> g.gameOver || (!g.daruma.facingBack && g.player.moving)
    ensures r.win == g.win && r.daruma == g.daruma
    ensures r.player == if !g.daruma.facingBack && g.player.moving then g.player.(colour := GREY) else g.player
  {
    if !g.daruma.facingBack && g.player.moving then
      g.(gameOver := true, player := g.player.(colour := GREY))
    else
      g
  }

  /** The win check: reaching the goal line sets both win and game over. */
  function WinChecked(g: GameState): (r: GameState)
    ensures r.win <==> g.win || CheckGoal(g.player, GOAL_X)
    ensures r.gameOver <==> g.gameOver || CheckGoal(g.player, GOAL_X)
    ensures r.player == g.player && r.daruma == g.daruma
  {
    if CheckGoal(g.player, GOAL_X) then g.(win := true, gameOver := true) else g
  }

  /** The guarded update block of one frame. */
  function Ticked(g: GameState, keys: Keys, dt: real, w: Draws): (r: GameState)
    // a finished game is frozen
    ensures g.gameOver ==> r == g
    // a running game: the player moves and the Daruma updates, in that order
    ensures !g.gameOver ==> r.daruma == Updated(g.daruma, dt, w)
    // caught (and greyed) iff the player moved while the Daruma, after its update, faces the player
    ensures !g.gameOver ==>
      r.player == (var p := Moved(g.player, keys);
                   if !r.daruma.facingBack && p.moving then p.(colour := GREY) else p)
    // won iff the player reached the goal, whether or not it was also caught
    ensures !g.gameOver ==> (r.win <==> g.win || CheckGoal(r.player, GOAL_X))
    ensures !g.gameOver ==>
      (r.gameOver <==> (!r.daruma.facingBack && r.player.moving) || CheckGoal(r.player, GOAL_X))
    ensures Inv(g) && DrawsInRange(w) ==> Inv(r)
  {
    if g.gameOver then
      g
    else
      var moved := g.(player := Moved(g.player, keys), daruma := Updated(g.daruma, dt, w));
      WinChecked(CaughtChecked(moved))
  }

  /** One iteration of the main loop: the restart key first, then the update block. */
  function Stepped(g: GameState, f: Frame): (r: GameState)
    ensures f.restart && g.gameOver ==> r == Ticked(NewGame(f.resetDraws), f.keys, Elapsed(f.dtMs), f.tickDraws)
    ensures !(f.restart && g.gameOver) ==> r == Ticked(g, f.keys, Elapsed(f.dtMs), f.tickDraws)
    ensures Inv(g) && DrawsInRange(f.resetDraws) && DrawsInRange(f.tickDraws) ==> Inv(r)
  {
    var g1 := if f.restart && g.gameOver then NewGame(f.resetDraws) else g;
    Ticked(g1, f.keys, Elapsed(f.dtMs), f.tickDraws)
  }

  /** Repeating either check right away changes nothing more. */
  lemma ChecksIdempotent(g: GameState)
    ensures CaughtChecked(CaughtChecked(g)) == CaughtChecked(g)
    ensures WinChecked(WinChecked(g)) == WinChecked(g)
  {
  }

  /**
   * Caught and at the goal in the same frame: the Daruma turns round during
   * the update while the player steps onto the goal line. The win check runs
   * after the catch check and the game ends as a win with a grey player.
   */
  lemma CatchAndGoalSameFrame()
    ensures var g := GameState(
              PlayerState(615, 300, false, BLUE, false),
              DarumaState(true, 2.99, 3.0, 2.0, TEXT_BACK),
              false, false);
            var r := Ticked(g, RIGHT_ONLY, Elapsed(16), Draws(4.0, 2.0));
            Inv(g) && r.gameOver && r.win && r.player.colour == GREY && !r.daruma.facingBack
  {
  }

  /** The game after a sequence of frames. */
  function Run(g: GameState, fs: seq<Frame>): (r: GameState)
    // once the game is over, frames without a restart change nothing
    ensures g.gameOver && NoRestart(fs) ==> r == g
    decreases |fs|
  {
    if fs == [] then g else Run(Stepped(g, fs[0]), fs[1..])
  }

  /** Running two sequences of frames one after the other is running their concatenation. */
  lemma {:induction false} RunAppend(g: GameState, fs: seq<Frame>, gs: seq<Frame>)
    ensures Run(g, fs + gs) == Run(Run(g, fs), gs)
    decreases |fs|
  {
    if fs == [] {
      assert fs + gs == gs;
    } else {
      assert (fs + gs)[1..] == fs[1..] + gs;
      RunAppend(Stepped(g, fs[0]), fs[1..], gs);
    }
  }

  predicate AllDrawsInRange(fs: seq<Frame>) {
    forall i :: 0 <= i < |fs| ==> DrawsInRange(fs[i].resetDraws) && DrawsInRange(fs[i].tickDraws)
  }

  predicate NoRestart(fs: seq<Frame>) {
    forall i :: 0 <= i < |fs| ==> !fs[i].restart
  }

  /** The invariant holds after any sequence of frames. */
  lemma {:induction false} RunPreservesInv(g: GameState, fs: seq<Frame>)
    requires Inv(g) && AllDrawsInRange(fs)
    ensures Inv(Run(g, fs))
    decreases |fs|
  {
    if fs != [] {
      RunPreservesInv(Stepped(g, fs[0]), fs[1..]);
    }
  }

  /** Without a restart, the player advances at most one step per frame. */
  lemma {:induction false} AdvanceBound(g: GameState, fs: seq<Frame>)
    requires NoRestart(fs)
    ensures Run(g, fs).player.x <= g.player.x + SPEED * |fs|
    decreases |fs|
  {
    if fs != [] {
      AdvanceBound(Stepped(g, fs[0]), fs[1..]);
    }
  }

  /** From the spawn point the goal is 114 steps away: no game is won sooner. */
  lemma NoEarlyWin(w: Draws, fs: seq<Frame>)
    requires DrawsInRange(w) && AllDrawsInRange(fs) && NoRestart(fs)
    requires |fs| < (GOAL_X - PLAYER_WIDTH - SPAWN_X) / SPEED
    ensures !Run(NewGame(w), fs).win
  {
    RunPreservesInv(NewGame(w), fs);
    AdvanceBound(NewGame(w), fs);
  }

  /** A player who presses no key is never caught and never wins. */
  lemma {:induction false} IdleNeverEnds(g: GameState, fs: seq<Frame>)
    requires Inv(g) && !g.gameOver && AllDrawsInRange(fs)
    requires forall i :: 0 <= i < |fs| ==> fs[i].keys == NO_KEYS
    ensures !Run(g, fs).gameOver && !Run(g, fs).win
    ensures Run(g, fs).player.x == g.player.x && Run(g, fs).player.y == g.player.y
    decreases |fs|
  {
    if fs != [] {
      IdleNeverEnds(Stepped(g, fs[0]), fs[1..]);
    }
  }

  /** The Daruma faces back after each update along the frames of a running game. */
  predicate StaysBack(d: DarumaState, fs: seq<Frame>)
    decreases |fs|
  {
    fs == [] ||
    (var d' := Updated(d, Elapsed(fs[0].dtMs), fs[0].tickDraws);
     d'.facingBack && StaysBack(d', fs[1..]))
  }

  /**
   * Holding RIGHT while the Daruma keeps facing back wins once enough frames
   * have passed to cover the distance to the goal line.
   */
  lemma {:induction false} HoldRightWins(g: GameState, fs: seq<Frame>)
    requires Inv(g) && !g.gameOver && AllDrawsInRange(fs)
    requires forall i :: 0 <= i < |fs| ==> fs[i].keys == RIGHT_ONLY && !fs[i].restart
    requires StaysBack(g.daruma, fs)
    requires GOAL_X - PLAYER_WIDTH - g.player.x <= SPEED * |fs|
    ensures Run(g, fs).win && Run(g, fs).gameOver
    decreases |fs|
  {
    var g' := Stepped(g, fs[0]);
    RightOnlyStep(g.player);
    if g'.gameOver {
      assert NoRestart(fs[1..]);
    } else {
      HoldRightWins(g', fs[1..]);
    }
  }

  /** Scenario: from a fresh game, 114 frames of RIGHT with the Daruma facing back win. */
  lemma FreshGameHoldRightWins(w: Draws, fs: seq<Frame>)
    requires DrawsInRange(w) && AllDrawsInRange(fs)
    requires |fs| == (GOAL_X - PLAYER_WIDTH - SPAWN_X) / SPEED
    requires forall i :: 0 <= i < |fs| ==> fs[i].keys == RIGHT_ONLY && !fs[i].restart
    requires StaysBack(NewGame(w).daruma, fs)
    ensures Run(NewGame(w), fs).win
  {
    HoldRightWins(NewGame(w), fs);
  }

  /** A game object: player and Daruma objects plus the two outcome flags. */
  class Game {
    var player: Player
    var daruma: Daruma
    var gameOver: bool
    var win: bool

    function State(): GameState
      reads this, player, daruma
    {
      GameState(player.State(), daruma.State(), gameOver, win)
    }

    ghost predicate Valid()
      reads this, player, daruma
    {
      Inv(State())
    }

    constructor (w: Draws)
      ensures State() == NewGame(w)
      ensures DrawsInRange(w) ==> Valid()
    {
      player := new Player(SPAWN_X, SPAWN_Y);
      daruma := new Daruma(w);
      gameOver := false;
      win := false;
    }

    method CheckCaught()
      modifies this, player
      ensures player == old(player) && daruma == old(daruma)
      ensures State() == CaughtChecked(old(State()))
    {
      if !daruma.facingBack && player.moving {
        gameOver := true;
        player.colour := GREY;
      }
    }

    method CheckWin()
      modifies this
      ensures player == old(player) && daruma == old(daruma)
      ensures State() == WinChecked(old(State()))
    {
      if CheckGoal(player.State(), GOAL_X) {
        win := true;
        gameOver := true;
      }
    }

    /** Rebuilds player and Daruma and clears both flags, as the constructor does. */
    method Reset(w: Draws)
      modifies this
      ensures fresh(player) && fresh(daruma)
      ensures State() == NewGame(w)
    {
      player := new Player(SPAWN_X, SPAWN_Y);
      daruma := new Daruma(w);
      gameOver := false;
      win := false;
    }

    /** The update block of a frame, skipped once the game is over. */
    method Tick(keys: Keys, dt: real, w: Draws)
      modifies this, player, daruma
      ensures player == old(player) && daruma == old(daruma)
      ensures State() == Ticked(old(State()), keys, dt, w)
    {
      if !gameOver {
        player.Move(keys);
        daruma.Update(dt, w);
        CheckCaught();
        CheckWin();
      }
    }

    /** One iteration of the main loop, without drawing: restart key, then the update block. */
    method RunFrame(f: Frame)
      modifies this, player, daruma
      ensures State() == Stepped(old(State()), f)
      ensures old(Valid()) && DrawsInRange(f.resetDraws) && DrawsInRange(f.tickDraws) ==> Valid()
    {
      if f.restart && gameOver {
        Reset(f.resetDraws);
      }
      Tick(f.keys, Elapsed(f.dtMs), f.tickDraws);
    }
  }
}
