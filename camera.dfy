/** The four-facing camera of src/camera.rs: a settled facing, a turn that is
    animating, at most one queued turn, and the phase of the animation. */
module Cameras {
  import opened Common

  /** The side of the level the camera looks from. */
  datatype CameraPosition = N | E | S | W

  /** The way a turn rotates the camera. */
  datatype CameraDirection = L | R

  /** Seconds one quarter turn takes. */
  const RotationPeriod: real := 0.5

  function Opposite(d: CameraDirection): CameraDirection
  {
    match d
    case L => R
    case R => L
  }

  /** The view angle, in degrees, of a settled camera (the base angle of `view_matrix`). */
  function BaseAngle(p: CameraPosition): (a: real)
    ensures 0.0 <= a < 360.0
  {
    match p
    case S => 0.0
    case E => 90.0
    case N => 180.0
    case W => 270.0
  }

  /** Which way the phase, and so the view angle, runs during a turn: down for L, up for R. */
  function PhaseSign(d: CameraDirection): real
  {
    match d
    case L => -1.0
    case R => 1.0
  }

  /** An angle in [-360, 720) brought back to [0, 360). */
  function Wrap360(a: real): real
  {
    if a < 0.0 then a + 360.0 else if a >= 360.0 then a - 360.0 else a
  }

  /** The facing after one completed turn (the L and R adjacency tables).
      The settled angle afterwards is the angle the animation reached, so the
      view does not jump when a turn completes. */
  function Turn(p: CameraPosition, d: CameraDirection): (r: CameraPosition)
    ensures BaseAngle(r) == Wrap360(BaseAngle(p) + PhaseSign(d) * 90.0)
  {
    match d
    case L => (match p
      case N => E
      case E => S
      case S => W
      case W => N)
    case R => (match p
      case N => W
      case W => S
      case S => E
      case E => N)
  }

  /** Each table undoes the other. */
  lemma TurnInverse(p: CameraPosition, d: CameraDirection)
    ensures Turn(Turn(p, d), Opposite(d)) == p
  {
  }

  /** Four turns the same way come back to the start, and no fewer do. */
  lemma FourTurnsCycle(p: CameraPosition, d: CameraDirection)
    ensures Turn(Turn(Turn(Turn(p, d), d), d), d) == p
    ensures Turn(p, d) != p && Turn(Turn(p, d), d) != p && Turn(Turn(Turn(p, d), d), d) != p
  {
  }

  /** The observable state of a camera, without the zoom. */
  datatype CameraState = CameraState(
    position: CameraPosition,
    direction: Option<CameraDirection>,
    nextDirection: Option<CameraDirection>,
    movementPhase: real)

  /** What every reachable camera satisfies: an idle camera has phase 0, and
      the phase is always strictly inside one quarter turn. */
  predicate Consistent(s: CameraState)
  {
    (s.direction.None? ==> s.movementPhase == 0.0) && Abs(s.movementPhase) < 1.0
  }

  /** The camera a fresh `Camera::new` builds. */
  function Initial(p: CameraPosition): (s: CameraState)
    ensures Consistent(s) && s.position == p && s.direction.None?
  {
    CameraState(p, None, None, 0.0)
  }

  /** The effect of `move_`: start a turn when idle, else queue it. */
  function Moved(s: CameraState, dir: CameraDirection): (r: CameraState)
    ensures r.position == s.position && r.movementPhase == s.movementPhase
    ensures r.direction.Some? && (s.direction.Some? ==> r.direction == s.direction)
    ensures r.direction == Some(dir) || r.nextDirection == Some(dir)
  {
    match s.direction
    case None => s.(direction := Some(dir))
    case Some(_) => s.(nextDirection := Some(dir))
  }

  /** The phase after advancing an animating camera by `delta` seconds. */
  function AdvancedPhase(phase: real, dir: CameraDirection, delta: real): real
  {
    phase + PhaseSign(dir) * delta / RotationPeriod
  }

  /** The effect of `tick`. */
  function Ticked(s: CameraState, delta: real): (r: CameraState)
    ensures r.position == s.position
      || (s.direction.Some? && r.position == Turn(s.position, s.direction.value)
          && r.direction == s.nextDirection && r.nextDirection.None? && r.movementPhase == 0.0)
    ensures r.position == s.position ==> r.direction == s.direction && r.nextDirection == s.nextDirection
  {
    match s.direction
    case None => s
    case Some(dir) =>
      var phase := AdvancedPhase(s.movementPhase, dir, delta);
      if Abs(phase) >= 1.0 then
        CameraState(Turn(s.position, dir), s.nextDirection, None, 0.0)
      else
        s.(movementPhase := phase)
  }

  /** `move_` on an idle camera starts the turn and touches nothing else. */
  lemma MoveWhenIdle(s: CameraState, dir: CameraDirection)
    requires s.direction.None?
    ensures var r := Moved(s, dir);
      r.direction == Some(dir) && r.nextDirection == s.nextDirection
      && r.movementPhase == s.movementPhase && r.position == s.position
  {
  }

  /** `move_` while a turn animates only replaces the queued turn, so the
      newest request wins and the running turn is never interrupted. */
  lemma MoveWhileTurning(s: CameraState, d1: CameraDirection, d2: CameraDirection)
    requires s.direction.Some?
    ensures Moved(s, d1) == s.(nextDirection := Some(d1))
    ensures var r := Moved(Moved(s, d1), d2);
      r.nextDirection == Some(d2) && r.direction == s.direction
      && r.movementPhase == s.movementPhase && r.position == s.position
  {
  }

  /** An idle camera does not change on `tick`. */
  lemma TickWhenIdle(s: CameraState, delta: real)
    requires s.direction.None?
    ensures Ticked(s, delta) == s
  {
  }

  /** After any `tick` of an animating camera the phase is strictly inside
      one quarter turn, because reaching a full turn resets it. */
  lemma TickPhaseBound(s: CameraState, delta: real)
    requires s.direction.Some?
    ensures Abs(Ticked(s, delta).movementPhase) < 1.0
  {
  }

  /** A tick that reaches a full quarter turn commits exactly one step of the
      table, promotes the queued turn and empties the queue. */
  lemma TickCompletes(s: CameraState, dir: CameraDirection, delta: real)
    requires s.direction == Some(dir)
    requires Abs(AdvancedPhase(s.movementPhase, dir, delta)) >= 1.0
    ensures var r := Ticked(s, delta);
      r.position == Turn(s.position, dir) && r.direction == s.nextDirection
      && r.nextDirection.None? && r.movementPhase == 0.0
  {
  }

  /** A tick that does not reach a full turn only moves the phase. */
  lemma TickInProgress(s: CameraState, dir: CameraDirection, delta: real)
    requires s.direction == Some(dir)
    requires Abs(AdvancedPhase(s.movementPhase, dir, delta)) < 1.0
    ensures var r := Ticked(s, delta);
      r.position == s.position && r.direction == s.direction
      && r.nextDirection == s.nextDirection
      && r.movementPhase == AdvancedPhase(s.movementPhase, dir, delta)
  {
  }

  /** `move_` and `tick` keep a camera consistent. */
  lemma MovePreservesConsistent(s: CameraState, dir: CameraDirection)
    requires Consistent(s)
    ensures Consistent(Moved(s, dir))
  {
  }

  lemma TickPreservesConsistent(s: CameraState, delta: real)
    requires Consistent(s)
    ensures Consistent(Ticked(s, delta))
  {
  }

  /** The view angle `view_matrix` rotates by: the base angle plus the
      fraction of the running turn. */
  function ViewAngle(s: CameraState): (a: real)
    ensures s.movementPhase == 0.0 ==> a == BaseAngle(s.position)
    ensures Consistent(s) ==> BaseAngle(s.position) - 90.0 < a < BaseAngle(s.position) + 90.0
  {
    BaseAngle(s.position) + s.movementPhase * 90.0
  }

  /** The angle the animation heads for equals, up to a whole turn, the angle
      of the facing the turn settles in. */
  lemma ViewAngleContinuous(s: CameraState, dir: CameraDirection)
    requires s.direction == Some(dir)
    ensures var target := ViewAngle(s.(movementPhase := PhaseSign(dir)));
      ViewAngle(CameraState(Turn(s.position, dir), s.nextDirection, None, 0.0)) == Wrap360(target)
  {
  }

  /** An input the game feeds the camera. */
  datatype CameraInput = MoveInput(dir: CameraDirection) | TickInput(delta: real)

  /** The camera after a sequence of inputs, oldest first. */
  function Run(s: CameraState, inputs: seq<CameraInput>): CameraState
    decreases |inputs|
  {
    if inputs == [] then s
    else
      var next := match inputs[0]
        case MoveInput(d) => Moved(s, d)
        case TickInput(delta) => Ticked(s, delta);
      Run(next, inputs[1..])
  }

  /** Any sequence of `move_` and `tick` calls keeps a camera consistent. */
  lemma {:induction false} RunPreservesConsistent(s: CameraState, inputs: seq<CameraInput>)
    requires Consistent(s)
    ensures Consistent(Run(s, inputs))
    decreases |inputs|
  {
    if inputs != [] {
      var next := match inputs[0]
        case MoveInput(d) => Moved(s, d)
        case TickInput(delta) => Ticked(s, delta);
      if inputs[0].MoveInput? {
        MovePreservesConsistent(s, inputs[0].dir);
      } else {
        TickPreservesConsistent(s, inputs[0].delta);
      }
      RunPreservesConsistent(next, inputs[1..]);
    }
  }

  class Camera {
    var position: CameraPosition
    var direction: Option<CameraDirection>
    var nextDirection: Option<CameraDirection>
    var movementPhase: real
    /** log2 of the view scale; only the renderer reads it. */
    var zoom: real

    ghost function State(): CameraState
      reads this
    {
      CameraState(position, direction, nextDirection, movementPhase)
    }

    ghost predicate Valid()
      reads this
    {
      Consistent(State())
    }

    constructor (position: CameraPosition)
      ensures Valid() && State() == Initial(position) && zoom == 0.0
    {
      this.position := position;
      direction := None;
      nextDirection := None;
      movementPhase := 0.0;
      zoom := 0.0;
    }

    /** The turn currently animating, if any. */
    function Direction(): Option<CameraDirection>
      reads this
    {
      direction
    }

    /** The settled facing. */
    function Position(): CameraPosition
      reads this
    {
      position
    }

    method Move(dir: CameraDirection)
      requires Valid()
      modifies this
      ensures Valid() && State() == Moved(old(State()), dir) && zoom == old(zoom)
    {
      match direction {
        case None => direction := Some(dir);
        case Some(_) => nextDirection := Some(dir);
      }
      MovePreservesConsistent(old(State()), dir);
    }

    method Tick(delta: real)
      requires Valid()
      modifies this
      ensures Valid() && State() == Ticked(old(State()), delta) && zoom == old(zoom)
    {
      if direction.Some? {
        var dir := direction.value;
        movementPhase := movementPhase + PhaseSign(dir) * delta / RotationPeriod;
        if Abs(movementPhase) >= 1.0 {
          movementPhase := 0.0;
          position := Turn(position, dir);
          direction := nextDirection;
          nextDirection := None;
        }
      }
      TickPreservesConsistent(old(State()), delta);
    }
  }
}
