/**
 * The Daruma: a figure that alternates between facing back (movement is
 * safe) and facing the player (movement is caught). Each phase lasts a
 * randomly drawn time; the timer accumulates frame times and the facing flips
 * once the current phase's duration is reached.
 */
module DarumaEntity {
  /** What the Daruma says while facing back, and while facing the player. */
  const TEXT_BACK: string := "だるまさんが"
  const TEXT_FRONT: string := "転んだ！"

  /** Range of the facing-back phase duration ("turn_duration"), in seconds. */
  const TURN_MIN: real := 2.0
  const TURN_MAX: real := 5.0
  /** Range of the facing-the-player phase duration ("back_duration"), in seconds. */
  const BACK_MIN: real := 1.0
  const BACK_MAX: real := 3.0

  /**
   * The values the uniform random draws would return, if drawn: one for
   * each of the two durations.
   */
  datatype Draws = Draws(turn: real, back: real)

  predicate DrawsInRange(w: Draws) {
    TURN_MIN <= w.turn <= TURN_MAX && BACK_MIN <= w.back <= BACK_MAX
  }

  /** The value of a Daruma object. */
  datatype DarumaState = DarumaState(
    facingBack: bool,
    turnTimer: real,
    turnDuration: real,
    backDuration: real,
    sayingText: string)

  /** The phrase shown in a facing state. */
  function Phrase(facingBack: bool): string {
    if facingBack then TEXT_BACK else TEXT_FRONT
  }

  /** The duration of the phase the Daruma is in: facing back uses turnDuration. */
  function PhaseDuration(d: DarumaState): real {
    if d.facingBack then d.turnDuration else d.backDuration
  }

  predicate DurationsInRange(d: DarumaState) {
    TURN_MIN <= d.turnDuration <= TURN_MAX && BACK_MIN <= d.backDuration <= BACK_MAX
  }

  /**
   * The object invariant: both durations lie in their ranges, the timer has
   * not yet reached the duration of the current phase, and the phrase
   * matches the facing state.
   */
  predicate Consistent(d: DarumaState) {
    DurationsInRange(d) && d.turnTimer < PhaseDuration(d) && d.sayingText == Phrase(d.facingBack)
  }

  /** A freshly constructed Daruma. */
  function NewDaruma(w: Draws): (d: DarumaState)
    ensures d.facingBack && d.turnTimer == 0.0 && d.sayingText == TEXT_BACK
    ensures d.turnDuration == w.turn && d.backDuration == w.back
    ensures DrawsInRange(w) ==> Consistent(d)
  {
    DarumaState(true, 0.0, w.turn, w.back, TEXT_BACK)
  }

  /** The Daruma after one call of update with frame time dt. */
  function Updated(d: DarumaState, dt: real, w: Draws): (r: DarumaState)
    // the facing flips (at most once) iff the advanced timer reaches the phase's duration
    ensures r.facingBack != d.facingBack <==> d.turnTimer + dt >= PhaseDuration(d)
    // a flip resets the timer; otherwise the timer advances by dt
    ensures r.facingBack != d.facingBack ==> r.turnTimer == 0.0
    ensures r.facingBack == d.facingBack ==> r.turnTimer == d.turnTimer + dt
    // a duration is redrawn only when the phase it governs ends
    ensures r.turnDuration == if d.facingBack && !r.facingBack then w.turn else d.turnDuration
    ensures r.backDuration == if !d.facingBack && r.facingBack then w.back else d.backDuration
    // the phrase always matches the facing state afterwards
    ensures r.sayingText == Phrase(r.facingBack)
    ensures DrawsInRange(w) && DurationsInRange(d) ==> Consistent(r)
    ensures 0.0 <= d.turnTimer && 0.0 <= dt ==> 0.0 <= r.turnTimer
  {
    var timer := d.turnTimer + dt;
    if d.facingBack then
      if timer >= d.turnDuration then
        d.(facingBack := false, turnTimer := 0.0, turnDuration := w.turn, sayingText := TEXT_FRONT)
      else
        d.(turnTimer := timer, sayingText := TEXT_BACK)
    else
      if timer >= d.backDuration then
        d.(facingBack := true, turnTimer := 0.0, backDuration := w.back, sayingText := TEXT_BACK)
      else
        d.(turnTimer := timer, sayingText := TEXT_FRONT)
  }

  /** The Daruma after a sequence of updates, each with its frame time and draws. */
  function UpdatedAll(d: DarumaState, steps: seq<(real, Draws)>): DarumaState
    decreases |steps|
  {
    if steps == [] then d else UpdatedAll(Updated(d, steps[0].0, steps[0].1), steps[1..])
  }

  /** Total frame time of a sequence of updates. */
  function TotalTime(steps: seq<(real, Draws)>): real
    decreases |steps|
  {
    if steps == [] then 0.0 else steps[0].0 + TotalTime(steps[1..])
  }

  /** No update along the sequence flips the facing. */
  predicate NoFlip(d: DarumaState, steps: seq<(real, Draws)>)
    decreases |steps|
  {
    steps == [] ||
    (var d' := Updated(d, steps[0].0, steps[0].1);
     d'.facingBack == d.facingBack && NoFlip(d', steps[1..]))
  }

  /** Consistency survives any sequence of updates whose draws are in range. */
  lemma {:induction false} UpdatedAllConsistent(d: DarumaState, steps: seq<(real, Draws)>)
    requires Consistent(d)
    requires forall i :: 0 <= i < |steps| ==> DrawsInRange(steps[i].1)
    ensures Consistent(UpdatedAll(d, steps))
    decreases |steps|
  {
    if steps != [] {
      UpdatedAllConsistent(Updated(d, steps[0].0, steps[0].1), steps[1..]);
    }
  }

  /**
   * Within one phase the timer is the sum of the frame times, the durations
   * are not redrawn, and the phase ends before that sum reaches its duration:
   * facing back lasts less than 5 seconds of frame time, facing the player
   * less than 3.
   */
  lemma {:induction false} PhaseTimerIsTotalTime(d: DarumaState, steps: seq<(real, Draws)>)
    requires NoFlip(d, steps)
    ensures UpdatedAll(d, steps).facingBack == d.facingBack
    ensures UpdatedAll(d, steps).turnTimer == d.turnTimer + TotalTime(steps)
    ensures UpdatedAll(d, steps).turnDuration == d.turnDuration
    ensures UpdatedAll(d, steps).backDuration == d.backDuration
    ensures d.turnTimer + TotalTime(steps) < PhaseDuration(d) || steps == []
    ensures steps != [] && DurationsInRange(d) && d.facingBack ==> d.turnTimer + TotalTime(steps) < TURN_MAX
    ensures steps != [] && DurationsInRange(d) && !d.facingBack ==> d.turnTimer + TotalTime(steps) < BACK_MAX
    decreases |steps|
  {
    if steps != [] {
      PhaseTimerIsTotalTime(Updated(d, steps[0].0, steps[0].1), steps[1..]);
    }
  }

  /** A Daruma object: its fields are updated in place by Update. */
  class Daruma {
    var facingBack: bool
    var turnTimer: real
    var turnDuration: real
    var backDuration: real
    var sayingText: string

    function State(): DarumaState
      reads this
    {
      DarumaState(facingBack, turnTimer, turnDuration, backDuration, sayingText)
    }

    ghost predicate Valid()
      reads this
    {
      Consistent(State())
    }

    /** Starts facing back with a zero timer; both durations are drawn. */
    constructor (w: Draws)
      ensures State() == NewDaruma(w)
    {
      facingBack := true;
      turnTimer := 0.0;
      turnDuration := w.turn;
      backDuration := w.back;
      sayingText := TEXT_BACK;
    }

    /** Advances the timer by dt and flips the facing once the phase is over. */
    method Update(dt: real, w: Draws)
      modifies this
      ensures State() == Updated(old(State()), dt, w)
      ensures old(Valid()) && DrawsInRange(w) ==> Valid()
    {
      turnTimer := turnTimer + dt;
      if facingBack {
        sayingText := TEXT_BACK;
        if turnTimer >= turnDuration {
          facingBack := false;
          turnTimer := 0.0;
          turnDuration := w.turn;
          sayingText := TEXT_FRONT;
        }
      } else {
        sayingText := TEXT_FRONT;
        if turnTimer >= backDuration {
          facingBack := true;
          turnTimer := 0.0;
          backDuration := w.back;
          sayingText := TEXT_BACK;
        }
      }
    }
  }
}
