/**
 * The player: a rectangle that moves a fixed step per frame for each held
 * arrow key, provided the step keeps it inside the field, and that reaches the
 * goal once its right edge touches the goal line.
 */
module PlayerEntity {
  import opened Screen

  const PLAYER_WIDTH: int := 30
  const PLAYER_HEIGHT: int := 50
  /** Displacement per held key and frame; not scaled by the frame time. */
  const SPEED: int := 5
  /** Largest left and top coordinates the boundary guards allow. */
  const MAX_X: int := WIDTH - PLAYER_WIDTH
  const MAX_Y: int := HEIGHT - PLAYER_HEIGHT

  datatype Colour = Rgb(r: int, g: int, b: int)
  const BLUE: Colour := Rgb(0, 0, 255)
  /** The colour a caught player is drawn in. */
  const GREY: Colour := Rgb(100, 100, 100)

  /** State of the four arrow keys in one frame. */
  datatype Keys = Keys(up: bool, down: bool, left: bool, right: bool)
  const NO_KEYS: Keys := Keys(false, false, false, false)
  const RIGHT_ONLY: Keys := Keys(false, false, false, true)

  /** The value of a player object. */
  datatype PlayerState = PlayerState(x: int, y: int, moving: bool, colour: Colour, eliminated: bool)

  /** The coordinates lie inside the field. */
  predicate InField(p: PlayerState) {
    0 <= p.x <= MAX_X && 0 <= p.y <= MAX_Y
  }

  /** The coordinates are multiples of the step, as the spawn point and both bounds are. */
  predicate OnGrid(p: PlayerState) {
    p.x % SPEED == 0 && p.y % SPEED == 0
  }

  /** A freshly constructed player at (x, y). */
  function NewPlayer(x: int, y: int): (p: PlayerState)
    ensures p.x == x && p.y == y
    ensures !p.moving && p.colour == BLUE && !p.eliminated
    ensures 0 <= x <= MAX_X && 0 <= y <= MAX_Y ==> InField(p)
  {
    PlayerState(x, y, false, BLUE, false)
  }

  /**
   * The two guarded steps along one axis, in the order `move` takes
   * them: first the key towards 0 (guard: coordinate above 0), then the key
   * towards hi (guard: coordinate, as updated by the first key, below hi).
   * Returns the new coordinate and whether either step was taken.
   */
  function AxisStep(c: int, dec: bool, inc: bool, hi: int): (r: (int, bool))
    // each axis changes by at most one step
    ensures c - SPEED <= r.0 <= c + SPEED
    // a coordinate no key could move stays where it is, and no step is reported
    ensures r.0 != c ==> r.1
    // the coordinate stays in [0, hi] (and on the grid) when the bound is on the grid
    ensures 0 <= c <= hi && c % SPEED == 0 && hi % SPEED == 0 ==> 0 <= r.0 <= hi && r.0 % SPEED == 0
    // a step was taken iff a pressed key's guard held on the coordinate before the call
    ensures r.1 <==> (dec && c > 0) || (inc && c < hi)
    // a single pressed key moves exactly one step in its direction when its guard holds
    ensures dec && !inc ==> r.0 == if c > 0 then c - SPEED else c
    ensures inc && !dec ==> r.0 == if c < hi then c + SPEED else c
    ensures !dec && !inc ==> r.0 == c && !r.1
    // pressing the increasing key at the upper bound leaves the coordinate there
    ensures 0 < c == hi && inc ==> r.0 == c
    // at the lower bound the decreasing key never changes the coordinate
    ensures c == 0 < hi && !inc ==> r.0 == c
    // both keys in the interior: net zero displacement, yet a step is reported
    ensures dec && inc && 0 < c <= hi ==> r.0 == c && r.1
  {
    var c1 := if dec && c > 0 then c - SPEED else c;
    var c2 := if inc && c1 < hi then c1 + SPEED else c1;
    (c2, (dec && c > 0) || (inc && c1 < hi))
  }

  /** Some pressed key's boundary guard holds at (p.x, p.y). */
  predicate SomeGuardHeld(p: PlayerState, k: Keys) {
    (k.up && p.y > 0) || (k.down && p.y < MAX_Y) || (k.left && p.x > 0) || (k.right && p.x < MAX_X)
  }

  /** The player after one call of move with key state k. */
  function Moved(p: PlayerState, k: Keys): (r: PlayerState)
    ensures r.colour == p.colour && r.eliminated == p.eliminated
    ensures p.x - SPEED <= r.x <= p.x + SPEED && p.y - SPEED <= r.y <= p.y + SPEED
    ensures InField(p) && OnGrid(p) ==> InField(r) && OnGrid(r)
    ensures r.moving <==> SomeGuardHeld(p, k)
    // each single key moves one step in its own direction when its guard holds
    ensures k.up && !k.down ==> r.y == if p.y > 0 then p.y - SPEED else p.y
    ensures k.down && !k.up ==> r.y == if p.y < MAX_Y then p.y + SPEED else p.y
    ensures !k.up && !k.down ==> r.y == p.y
    ensures k.left && !k.right ==> r.x == if p.x > 0 then p.x - SPEED else p.x
    ensures k.right && !k.left ==> r.x == if p.x < MAX_X then p.x + SPEED else p.x
    ensures !k.left && !k.right ==> r.x == p.x
    // UP with DOWN (or LEFT with RIGHT) away from the edges cancel out
    ensures k.up && k.down && 0 < p.y <= MAX_Y ==> r.y == p.y
    ensures k.left && k.right && 0 < p.x <= MAX_X ==> r.x == p.x
    ensures (r.x != p.x || r.y != p.y) ==> r.moving
    ensures k == NO_KEYS ==> r == p.(moving := false)
  {
    var (y', movedY) := AxisStep(p.y, k.up, k.down, MAX_Y);
    var (x', movedX) := AxisStep(p.x, k.left, k.right, MAX_X);
    p.(x := x', y := y', moving := movedY || movedX)
  }

  /** The goal test: the right edge of the player has reached goalX. */
  function CheckGoal(p: PlayerState, goalX: int): (r: bool)
    // the left edge is within one player width of the goal line
    ensures r <==> p.x >= goalX - PLAYER_WIDTH
  {
    p.x + PLAYER_WIDTH >= goalX
  }

  /** Holding RIGHT alone, short of the right bound, moves exactly one step right. */
  lemma RightOnlyStep(p: PlayerState)
    requires InField(p) && p.x < MAX_X
    ensures Moved(p, RIGHT_ONLY) == p.(x := p.x + SPEED, moving := true)
  {
  }

  /** Off the step grid the guards are not enough: a step down from y = 548 leaves the field. */
  lemma OffGridLeavesField()
    ensures var p := PlayerState(0, 548, false, BLUE, false);
            InField(p) && !OnGrid(p) && !InField(Moved(p, Keys(false, true, false, false)))
  {
  }

  /** A player object: its fields are updated in place by Move. */
  class Player {
    var x: int
    var y: int
    var moving: bool
    var colour: Colour
    var eliminated: bool

    function State(): PlayerState
      reads this
    {
      PlayerState(x, y, moving, colour, eliminated)
    }

    ghost predicate Valid()
      reads this
    {
      InField(State()) && OnGrid(State())
    }

    constructor (x0: int, y0: int)
      ensures State() == NewPlayer(x0, y0)
    {
      x, y := x0, y0;
      moving := false;
      colour := BLUE;
      eliminated := false;
    }

    /** Applies one frame of key input: up, down, left, right, each behind its guard. */
    method Move(keys: Keys)
      modifies this
      ensures State() == Moved(old(State()), keys)
      ensures old(Valid()) ==> Valid()
    {
      moving := false;
      if keys.up && y > 0 {
        y := y - SPEED;
        moving := true;
      }
      if keys.down && y < HEIGHT - PLAYER_HEIGHT {
        y := y + SPEED;
        moving := true;
      }
      if keys.left && x > 0 {
        x := x - SPEED;
        moving := true;
      }
      if keys.right && x < WIDTH - PLAYER_WIDTH {
        x := x + SPEED;
        moving := true;
      }
    }
  }
}
