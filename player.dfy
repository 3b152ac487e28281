/** The player of src/player.rs: key-state flags, jumping, two-rate gravity,
    landing on platforms, and keeping the sprite out from behind walls, all
    relative to the camera's facing. */
module Players {
  import opened Common
  import opened Cameras
  import opened Levels

  // ---------------------------------------------------------------------------
  // The `Movement` bitset

  /** The named bits of `Movement`. */
  datatype Flag = PressingLeft | PressingRight | MovingLeft | MovingRight | Jumping | PressingDown

  /** The bit each flag occupies in the u8. */
  function Bit(f: Flag): bv8
  {
    match f
    case PressingLeft => 0x01
    case PressingRight => 0x02
    case MovingLeft => 0x04
    case MovingRight => 0x08
    case Jumping => 0x10
    case PressingDown => 0x20
  }

  /** `contains`: the flag's bit is set. */
  predicate Has(b: bv8, f: Flag)
  {
    b & Bit(f) == Bit(f)
  }

  /** Flag f reads the same in b and r. */
  predicate Keeps(b: bv8, r: bv8, f: Flag)
  {
    Has(r, f) == Has(b, f)
  }

  /** `insert`: sets f and no other flag. */
  function Inserted(b: bv8, f: Flag): (r: bv8)
    ensures Has(r, f)
    ensures forall g :: g != f ==> Keeps(b, r, g)
  {
    b | Bit(f)
  }

  /** `remove`: clears f and no other flag. */
  function Removed(b: bv8, f: Flag): (r: bv8)
    ensures !Has(r, f)
    ensures forall g :: g != f ==> Keeps(b, r, g)
  {
    b & !Bit(f)
  }

  /** The key-state invariant: at most one moving flag, and each moving flag
      only while its key is held. */
  predicate FlagsOk(b: bv8)
  {
    !(Has(b, MovingLeft) && Has(b, MovingRight))
    && (Has(b, MovingLeft) ==> Has(b, PressingLeft))
    && (Has(b, MovingRight) ==> Has(b, PressingRight))
  }

  /** `press_left`: the last key pressed wins. */
  function PressedLeft(b: bv8): (r: bv8)
    ensures Has(r, PressingLeft) && Has(r, MovingLeft) && !Has(r, MovingRight)
    ensures Keeps(b, r, PressingRight) && Keeps(b, r, Jumping) && Keeps(b, r, PressingDown)
    ensures FlagsOk(r)
  {
    Removed(Inserted(Inserted(b, PressingLeft), MovingLeft), MovingRight)
  }

  /** `release_left`: stop moving left, and fall back to right if it is held. */
  function ReleasedLeft(b: bv8): (r: bv8)
    ensures !Has(r, PressingLeft) && !Has(r, MovingLeft)
    ensures Has(r, MovingRight) <==> Has(b, MovingRight) || Has(b, PressingRight)
    ensures Keeps(b, r, PressingRight) && Keeps(b, r, Jumping) && Keeps(b, r, PressingDown)
    ensures FlagsOk(b) ==> FlagsOk(r)
  {
    var c := Removed(Removed(b, PressingLeft), MovingLeft);
    if Has(c, PressingRight) then Inserted(c, MovingRight) else c
  }

  /** `press_right`: the mirror image of `press_left`. */
  function PressedRight(b: bv8): (r: bv8)
    ensures Has(r, PressingRight) && Has(r, MovingRight) && !Has(r, MovingLeft)
    ensures Keeps(b, r, PressingLeft) && Keeps(b, r, Jumping) && Keeps(b, r, PressingDown)
    ensures FlagsOk(r)
  {
    Removed(Inserted(Inserted(b, PressingRight), MovingRight), MovingLeft)
  }

  /** `release_right`: the mirror image of `release_left`. */
  function ReleasedRight(b: bv8): (r: bv8)
    ensures !Has(r, PressingRight) && !Has(r, MovingRight)
    ensures Has(r, MovingLeft) <==> Has(b, MovingLeft) || Has(b, PressingLeft)
    ensures Keeps(b, r, PressingLeft) && Keeps(b, r, Jumping) && Keeps(b, r, PressingDown)
    ensures FlagsOk(b) ==> FlagsOk(r)
  {
    var c := Removed(Removed(b, PressingRight), MovingRight);
    if Has(c, PressingLeft) then Inserted(c, MovingLeft) else c
  }

  /** Holding left, tapping right and letting go of it moves left again. */
  lemma FallBackToHeldKey(b: bv8)
    ensures var r := ReleasedRight(PressedRight(PressedLeft(b)));
      Has(r, MovingLeft) && !Has(r, MovingRight)
  {
  }

  /** The mirror image: holding right, tapping left. */
  lemma FallBackToHeldKeyRight(b: bv8)
    ensures var r := ReleasedLeft(PressedLeft(PressedRight(b)));
      Has(r, MovingRight) && !Has(r, MovingLeft)
  {
  }

  /** The `Movement` bitset, updated in place by key events. */
  class Movement {
    var bits: bv8

    /** `Movement::empty`. */
    constructor Empty()
      ensures bits == 0 && FlagsOk(bits)
    {
      bits := 0;
    }

    function Contains(f: Flag): bool
      reads this
    {
      Has(bits, f)
    }

    method Insert(f: Flag)
      modifies this
      ensures bits == Inserted(old(bits), f)
    {
      bits := bits | Bit(f);
    }

    method Remove(f: Flag)
      modifies this
      ensures bits == Removed(old(bits), f)
    {
      bits := bits & !Bit(f);
    }

    function MovingLeft(): bool
      reads this
    {
      Contains(Flag.MovingLeft)
    }

    function MovingRight(): bool
      reads this
    {
      Contains(Flag.MovingRight)
    }

    method PressLeft()
      modifies this
      ensures bits == PressedLeft(old(bits))
    {
      Insert(PressingLeft);
      Insert(Flag.MovingLeft);
      Remove(Flag.MovingRight);
    }

    method ReleaseLeft()
      modifies this
      ensures bits == ReleasedLeft(old(bits))
    {
      Remove(PressingLeft);
      Remove(Flag.MovingLeft);
      if Contains(PressingRight) {
        Insert(Flag.MovingRight);
      }
    }

    method PressRight()
      modifies this
      ensures bits == PressedRight(old(bits))
    {
      Insert(PressingRight);
      Insert(Flag.MovingRight);
      Remove(Flag.MovingLeft);
    }

    method ReleaseRight()
      modifies this
      ensures bits == ReleasedRight(old(bits))
    {
      Remove(PressingRight);
      Remove(Flag.MovingRight);
      if Contains(PressingLeft) {
        Insert(Flag.MovingLeft);
      }
    }

    method PressDown()
      modifies this
      ensures bits == Inserted(old(bits), PressingDown)
    {
      Insert(PressingDown);
    }

    method ReleaseDown()
      modifies this
      ensures bits == Removed(old(bits), PressingDown)
    {
      Remove(PressingDown);
    }
  }

  // ---------------------------------------------------------------------------
  // Constants, in units per second (squared for gravity)

  const MoveVel: real := 6.0
  const JumpVel: real := 14.0
  const JumpGravity: real := 25.0
  const DefaultGravity: real := 50.0
  const MaxFallVel: real := 24.0

  /** How far `press_jump` with down held nudges the player below the surface. */
  const DropNudge: real := 0.01

  // ---------------------------------------------------------------------------
  // Player state as a value

  datatype PlayerState = PlayerState(
    pos: Point,
    movement: bv8,
    zVel: real,
    standingOn: Option<nat>,
    behindWall: bool)

  /** `Player::new`. */
  function Spawned(pos: Point): (s: PlayerState)
    ensures s.pos == pos && s.standingOn.None? && s.zVel == 0.0 && !s.behindWall
    ensures s.movement == 0 && forall f :: !Has(s.movement, f)
    ensures Steady(s)
  {
    PlayerState(pos, 0, 0.0, None, false)
  }

  /** What holds of every player between calls: the key-state invariant,
      the fall speed is capped, and a falling player stands on nothing. */
  predicate Steady(s: PlayerState)
  {
    FlagsOk(s.movement) && s.zVel >= -MaxFallVel && (s.zVel < 0.0 ==> s.standingOn.None?)
  }

  /** The platform the player stands on, if any, is one of the n platforms. */
  predicate StandsWithin(s: PlayerState, n: nat)
  {
    s.standingOn.Some? ==> s.standingOn.value < n
  }

  /** `press_jump`. */
  function JumpPressed(s: PlayerState): (r: PlayerState)
    ensures s.standingOn.None? ==> r == s
    ensures r.pos.0 == s.pos.0 && r.pos.1 == s.pos.1 && r.pos.2 <= s.pos.2 && r.behindWall == s.behindWall
    ensures r.standingOn.None? || r.standingOn == s.standingOn
  {
    if s.standingOn.None? then s
    else if Has(s.movement, PressingDown) then s.(pos := (s.pos.0, s.pos.1, s.pos.2 - DropNudge))
    else s.(zVel := JumpVel, standingOn := None, movement := Inserted(s.movement, Jumping))
  }

  /** The three outcomes of `press_jump`. */
  lemma JumpOutcomes(s: PlayerState)
    ensures s.standingOn.None? ==> JumpPressed(s) == s
    ensures s.standingOn.Some? && Has(s.movement, PressingDown) ==>
      JumpPressed(s) == s.(pos := (s.pos.0, s.pos.1, s.pos.2 - DropNudge))
    ensures s.standingOn.Some? && !Has(s.movement, PressingDown) ==>
      var r := JumpPressed(s);
      r.zVel == JumpVel && r.standingOn.None? && Has(r.movement, Jumping)
      && r.pos == s.pos && r.behindWall == s.behindWall
      && forall f :: f != Jumping ==> Keeps(s.movement, r.movement, f)
  {
  }

  lemma JumpPreservesSteady(s: PlayerState, n: nat)
    requires Steady(s) && StandsWithin(s, n)
    ensures Steady(JumpPressed(s)) && StandsWithin(JumpPressed(s), n)
  {
  }

  /** `release_jump` clears the jump flag and nothing else. */
  function JumpReleased(s: PlayerState): (r: PlayerState)
    ensures !Has(r.movement, Jumping)
    ensures forall f :: f != Jumping ==> Keeps(s.movement, r.movement, f)
    ensures r.pos == s.pos && r.zVel == s.zVel && r.standingOn == s.standingOn && r.behindWall == s.behindWall
    ensures Steady(s) ==> Steady(r)
  {
    s.(movement := Removed(s.movement, Jumping))
  }

  // ---------------------------------------------------------------------------
  // Geometry relative to the camera

  /** The horizontal axis the camera shows: x when facing S or N, y when facing E or W. */
  function Across(pos: Point, facing: CameraPosition): real
  {
    match facing
    case S | N => pos.0
    case E | W => pos.1
  }

  /** The depth axis, pointing away from the camera's line of sight: y for S and N, x for E and W. */
  function Depth(pos: Point, facing: CameraPosition): real
  {
    match facing
    case S | N => pos.1
    case E | W => pos.0
  }

  /** The horizontal displacement of one tick's walking, as (dx, dy). */
  function Walk(facing: CameraPosition, b: bv8, delta: real): (d: (real, real))
    ensures (facing == S || facing == N) ==> d.1 == 0.0
    ensures (facing == E || facing == W) ==> d.0 == 0.0
    ensures (Has(b, MovingLeft) || Has(b, MovingRight)) ==> Abs(d.0 + d.1) == MoveVel * Abs(delta)
    ensures !Has(b, MovingLeft) && !Has(b, MovingRight) ==> d == (0.0, 0.0)
    ensures Has(b, MovingLeft) ==> ToSouthView(facing, (d.0, d.1, 0.0)) == (-MoveVel * delta, 0.0, 0.0)
    ensures !Has(b, MovingLeft) && Has(b, MovingRight) ==> ToSouthView(facing, (d.0, d.1, 0.0)) == (MoveVel * delta, 0.0, 0.0)
  {
    var v := MoveVel * delta;
    if Has(b, MovingLeft) then
      match facing
      case S => (-v, 0.0)
      case N => (v, 0.0)
      case E => (0.0, -v)
      case W => (0.0, v)
    else if Has(b, MovingRight) then
      match facing
      case S => (v, 0.0)
      case N => (-v, 0.0)
      case E => (0.0, v)
      case W => (0.0, -v)
    else
      (0.0, 0.0)
  }

  /** For a given facing, walking left is walking right backwards. (That
      "left" is the same way on screen for every facing is in `Walk`'s
      contract: turned into the south view, left is always towards -x.) */
  lemma WalkLeftMirrorsRight(facing: CameraPosition, left: bv8, right: bv8, delta: real)
    requires Has(left, MovingLeft) && Has(right, MovingRight) && !Has(right, MovingLeft)
    ensures Walk(facing, left, delta).0 == -Walk(facing, right, delta).0
    ensures Walk(facing, left, delta).1 == -Walk(facing, right, delta).1
  {
  }

  /** Whether the player, when it is at pos, is hidden behind platform p as seen from facing. */
  predicate BehindWall(pos: Point, facing: CameraPosition, p: Platform)
    ensures BehindWall(pos, facing, p) ==>
      p.surfaceCenter.2 - p.height - 1.0 < pos.2 < p.surfaceCenter.2
      && Abs(Across(pos, facing) - Across(p.surfaceCenter, facing))
         < 0.5 * Across((p.surfaceDim.0, p.surfaceDim.1, 0.0), facing) + 0.5
  {
    var c := p.surfaceCenter;
    var d := p.surfaceDim;
    match facing
    case S =>
      pos.2 < c.2 && pos.2 + 1.0 > c.2 - p.height
      && Abs(pos.0 - c.0) < 0.5 * d.0 + 0.5
      && pos.1 + 0.5 > c.1 - 0.5 * d.1
    case N =>
      pos.2 < c.2 && pos.2 + 1.0 > c.2 - p.height
      && Abs(pos.0 - c.0) < 0.5 * d.0 + 0.5
      && pos.1 - 0.5 < c.1 + 0.5 * d.1
    case W =>
      pos.2 < c.2 && pos.2 + 1.0 > c.2 - p.height
      && Abs(pos.1 - c.1) < 0.5 * d.1 + 0.5
      && pos.0 + 0.5 > c.0 - 0.5 * d.0
    case E =>
      pos.2 < c.2 && pos.2 + 1.0 > c.2 - p.height
      && Abs(pos.1 - c.1) < 0.5 * d.1 + 0.5
      && pos.0 - 0.5 < c.0 + 0.5 * d.0
  }

  /** The point as seen by a camera facing S after the world is turned so that
      facing looks the way S does (a rotation about the z axis). */
  function ToSouthView(facing: CameraPosition, q: Point): Point
  {
    match facing
    case S => q
    case N => (-q.0, -q.1, q.2)
    case E => (q.1, -q.0, q.2)
    case W => (-q.1, q.0, q.2)
  }

  /** The platform turned the same way (its footprint's extents swap for E and W). */
  function PlatformToSouthView(facing: CameraPosition, p: Platform): Platform
  {
    var dim := match facing
      case S | N => p.surfaceDim
      case E | W => (p.surfaceDim.1, p.surfaceDim.0);
    Platform(ToSouthView(facing, p.surfaceCenter), dim, p.height)
  }

  /** The four cases of `behind_wall` are one test turned four ways. */
  lemma BehindWallIsRotatedSouth(pos: Point, facing: CameraPosition, p: Platform)
    ensures BehindWall(pos, facing, p) == BehindWall(ToSouthView(facing, pos), S, PlatformToSouthView(facing, p))
  {
  }

  /** q is pos moved, along the depth axis only, towards the camera (or not at all). */
  predicate Nearer(q: Point, pos: Point, facing: CameraPosition)
  {
    q.2 == pos.2 && Across(q, facing) == Across(pos, facing)
    && match facing
      case S => q.1 <= pos.1
      case N => q.1 >= pos.1
      case W => q.0 <= pos.0
      case E => q.0 >= pos.0
  }

  /** Coming nearer to the camera never hides the player behind a platform
      that did not hide it before. */
  lemma NearerStaysInView(q: Point, pos: Point, facing: CameraPosition, p: Platform)
    requires Nearer(q, pos, facing) && !BehindWall(pos, facing, p)
    ensures !BehindWall(q, facing, p)
  {
  }

  /** Where the wall check puts a player found behind p: half a unit in front
      of p's face nearest the camera, on the depth axis only. */
  function SnappedOut(pos: Point, facing: CameraPosition, p: Platform): (r: Point)
    ensures !BehindWall(r, facing, p)
    ensures r.2 == pos.2 && Across(r, facing) == Across(pos, facing)
    ensures BehindWall(pos, facing, p) ==> Nearer(r, pos, facing)
  {
    var c := p.surfaceCenter;
    var d := p.surfaceDim;
    match facing
    case S => (pos.0, c.1 - 0.5 * d.1 - 0.5, pos.2)
    case N => (pos.0, c.1 + 0.5 * d.1 + 0.5, pos.2)
    case W => (c.0 - 0.5 * d.0 - 0.5, pos.1, pos.2)
    case E => (c.0 + 0.5 * d.0 + 0.5, pos.1, pos.2)
  }

  /** The player's position and the `behind_any` flag after the wall check has
      visited the first n platforms in index order. A platform found in front
      of the player moves it out at once, unless the player was already marked
      behind a wall, and later platforms are tested at the moved position. */
  function WallScan(ps: seq<Platform>, n: nat, facing: CameraPosition, pos: Point, behindWall: bool): (Point, bool)
    requires n <= |ps|
    decreases n
  {
    if n == 0 then (pos, false)
    else
      var prev := WallScan(ps, n - 1, facing, pos, behindWall);
      var behind := BehindWall(prev.0, facing, ps[n - 1]);
      (if behind && !behindWall then SnappedOut(prev.0, facing, ps[n - 1]) else prev.0, prev.1 || behind)
  }

  /** The wall check moves the player only along the depth axis. */
  lemma {:induction false} WallScanMovesDepthOnly(ps: seq<Platform>, n: nat, facing: CameraPosition, pos: Point, behindWall: bool)
    requires n <= |ps|
    ensures var r := WallScan(ps, n, facing, pos, behindWall).0;
      r.2 == pos.2 && Across(r, facing) == Across(pos, facing)
    decreases n
  {
    if n > 0 {
      WallScanMovesDepthOnly(ps, n - 1, facing, pos, behindWall);
    }
  }

  /** A player already marked behind a wall is not moved, and the check then
      reports exactly whether some platform hides it. */
  lemma {:induction false} WallScanWhenMarked(ps: seq<Platform>, n: nat, facing: CameraPosition, pos: Point)
    requires n <= |ps|
    ensures var r := WallScan(ps, n, facing, pos, true);
      r.0 == pos && (r.1 <==> exists i :: 0 <= i < n && BehindWall(pos, facing, ps[i]))
    decreases n
  {
    if n > 0 {
      WallScanWhenMarked(ps, n - 1, facing, pos);
    }
  }

  /** A player not marked behind a wall ends the check hidden by none of the
      platforms visited, even though it is moved in the middle of the scan:
      every move brings it nearer the camera, which un-hides nothing. */
  lemma {:induction false} WallScanUnmarked(ps: seq<Platform>, n: nat, facing: CameraPosition, pos: Point)
    requires n <= |ps|
    ensures var r := WallScan(ps, n, facing, pos, false).0;
      Nearer(r, pos, facing) && forall i :: 0 <= i < n ==> !BehindWall(r, facing, ps[i])
    decreases n
  {
    if n > 0 {
      WallScanUnmarked(ps, n - 1, facing, pos);
      var prev := WallScan(ps, n - 1, facing, pos, false).0;
      var r := WallScan(ps, n, facing, pos, false).0;
      if BehindWall(prev, facing, ps[n - 1]) {
        assert r == SnappedOut(prev, facing, ps[n - 1]);
        forall i | 0 <= i < n - 1
          ensures !BehindWall(r, facing, ps[i])
        {
          NearerStaysInView(r, prev, facing, ps[i]);
        }
      }
    }
  }

  /** When the check finds no platform in front, it has moved nothing, and no
      platform hides the player: clearing `behind_wall` is then right. */
  lemma {:induction false} WallScanClear(ps: seq<Platform>, n: nat, facing: CameraPosition, pos: Point, behindWall: bool)
    requires n <= |ps|
    requires !WallScan(ps, n, facing, pos, behindWall).1
    ensures WallScan(ps, n, facing, pos, behindWall).0 == pos
    ensures forall i :: 0 <= i < n ==> !BehindWall(pos, facing, ps[i])
    decreases n
  {
    if n > 0 {
      WallScanClear(ps, n - 1, facing, pos, behindWall);
    }
  }

  /** `snap_to_platform`: bring the player back over the platform along the
      camera's horizontal axis if it sticks out by more than half a unit. */
  function SnappedToPlatform(pos: Point, facing: CameraPosition, p: Platform): (r: Point)
    ensures r.2 == pos.2 && Depth(r, facing) == Depth(pos, facing)
    ensures var c := Across(p.surfaceCenter, facing);
      var dim := Across((p.surfaceDim.0, p.surfaceDim.1, 0.0), facing);
      (dim >= 0.0 ==> Abs(Across(r, facing) - c) <= 0.5 * dim + 0.5)
      && (Abs(Across(pos, facing) - c) <= 0.5 * dim + 0.5 ==> r == pos)
  {
    var c := Across(p.surfaceCenter, facing);
    var dim := Across((p.surfaceDim.0, p.surfaceDim.1, 0.0), facing);
    if Abs(Across(pos, facing) - c) > 0.5 * dim + 0.5 then
      var v := match facing
        case S | W => c - 0.5 * dim + 0.5
        case N | E => c + 0.5 * dim - 0.5;
      match facing
      case S | N => (v, pos.1, pos.2)
      case E | W => (pos.0, v, pos.2)
    else
      pos
  }

  /** Snapping twice is snapping once. */
  lemma SnapIdempotent(pos: Point, facing: CameraPosition, p: Platform)
    ensures SnappedToPlatform(SnappedToPlatform(pos, facing, p), facing, p) == SnappedToPlatform(pos, facing, p)
  {
  }

  /** Some platform hides the player at pos. */
  predicate AnyBehind(ps: seq<Platform>, facing: CameraPosition, pos: Point)
  {
    exists i :: 0 <= i < |ps| && BehindWall(pos, facing, ps[i])
  }

  /** `snap_from_camera_position`: keep the player over its platform under the
      new facing, then mark it behind a wall if some platform hides it. It
      never clears the mark. */
  function SnappedFromCamera(s: PlayerState, facing: CameraPosition, ps: seq<Platform>): (r: PlayerState)
    requires StandsWithin(s, |ps|)
    ensures r.movement == s.movement && r.zVel == s.zVel && r.standingOn == s.standingOn
    ensures s.standingOn.None? ==> r.pos == s.pos
    ensures s.standingOn.Some? ==> r.pos == SnappedToPlatform(s.pos, facing, ps[s.standingOn.value])
    ensures r.behindWall <==> s.behindWall || AnyBehind(ps, facing, r.pos)
  {
    var pos := if s.standingOn.Some? then SnappedToPlatform(s.pos, facing, ps[s.standingOn.value]) else s.pos;
    s.(pos := pos, behindWall := s.behindWall || AnyBehind(ps, facing, pos))
  }

  // ---------------------------------------------------------------------------
  // One tick of physics

  /** The platform test of the landing scan, along the axis the camera shows,
      for a body one unit wide. */
  predicate Supports(p: Platform, facing: CameraPosition, pos: Point, zLower: real, zUpper: real)
  {
    match facing
    case S | N => p.IntersectionX(pos.0, 1.0, zLower, zUpper)
    case W | E => p.IntersectionY(pos.1, 1.0, zLower, zUpper)
  }

  /** The platform the landing scan settles on among the first n: the last
      one in index order that supports the player, not the nearest. */
  function LastSupport(ps: seq<Platform>, n: nat, facing: CameraPosition, pos: Point, zLower: real, zUpper: real): (r: Option<nat>)
    requires n <= |ps|
    ensures r.Some? ==> r.value < n && Supports(ps[r.value], facing, pos, zLower, zUpper)
    ensures r.Some? ==> forall j :: r.value < j < n ==> !Supports(ps[j], facing, pos, zLower, zUpper)
    ensures r.None? ==> forall j :: 0 <= j < n ==> !Supports(ps[j], facing, pos, zLower, zUpper)
    decreases n
  {
    if n == 0 then None
    else if Supports(ps[n - 1], facing, pos, zLower, zUpper) then Some(n - 1)
    else LastSupport(ps, n - 1, facing, pos, zLower, zUpper)
  }

  /** Holding the jump flag makes gravity weaker. */
  function Gravity(b: bv8): (g: real)
    ensures JumpGravity <= g <= DefaultGravity
    ensures g < DefaultGravity <==> Has(b, Jumping)
  {
    if Has(b, Jumping) then JumpGravity else DefaultGravity
  }

  /** The height gravity alone would take the player to in `delta` seconds. */
  function FreeZ(s: PlayerState, delta: real): real
  {
    s.pos.2 + delta * (s.zVel - delta * 0.5 * Gravity(s.movement))
  }

  /** The vertical speed gravity alone would give, never faster down than MaxFallVel. */
  function FreeZVel(s: PlayerState, delta: real): (v: real)
    ensures v >= -MaxFallVel
  {
    Max(s.zVel - delta * Gravity(s.movement), -MaxFallVel)
  }

  /** The player after one tick's walking. */
  function Walked(s: PlayerState, delta: real, facing: CameraPosition): PlayerState
  {
    var step := Walk(facing, s.movement, delta);
    s.(pos := (s.pos.0 + step.0, s.pos.1 + step.1, s.pos.2))
  }

  /** Walking changes neither the height, nor the vertical speed, nor the flags,
      so gravity acts the same before and after it. */
  lemma WalkedFallsAlike(s: PlayerState, delta: real, facing: CameraPosition)
    ensures var w := Walked(s, delta, facing);
      FreeZ(w, delta) == FreeZ(s, delta) && FreeZVel(w, delta) == FreeZVel(s, delta)
  {
    var w := Walked(s, delta, facing);
    assert w.pos.2 == s.pos.2 && w.zVel == s.zVel && w.movement == s.movement;
  }

  /** The player after gravity and, when it falls, the landing scan. */
  function Landed(s: PlayerState, delta: real, facing: CameraPosition, ps: seq<Platform>): PlayerState
  {
    var z := FreeZ(s, delta);
    var v := FreeZVel(s, delta);
    var falling := v < 0.0;
    var movement := if falling then Removed(s.movement, Jumping) else s.movement;
    var hit := if falling then LastSupport(ps, |ps|, facing, s.pos, Min(s.pos.2, z), Max(s.pos.2, z)) else None;
    var z' := if hit.Some? then ps[hit.value].surfaceCenter.2 else z;
    var v' := if hit.Some? then 0.0 else v;
    var standingOn := if hit.Some? then hit else s.standingOn;
    PlayerState((s.pos.0, s.pos.1, z'), movement, v', if v' < 0.0 then None else standingOn, s.behindWall)
  }

  /** Gravity and the landing scan move the player only vertically. Either it
      follows gravity, or it stands on one of the level's platforms, at that
      platform's height and at rest; a platform it newly stands on is always
      such a landing. */
  lemma LandedOutcomes(s: PlayerState, delta: real, facing: CameraPosition, ps: seq<Platform>)
    ensures var r := Landed(s, delta, facing, ps);
      r.pos.0 == s.pos.0 && r.pos.1 == s.pos.1 && r.behindWall == s.behindWall
      && ((r.standingOn.Some? && r.standingOn != s.standingOn) ==>
            r.standingOn.value < |ps| && r.pos.2 == ps[r.standingOn.value].surfaceCenter.2 && r.zVel == 0.0)
      && ((r.pos.2 == FreeZ(s, delta) && r.zVel == FreeZVel(s, delta))
          || (r.zVel == 0.0 && r.standingOn.Some? && r.standingOn.value < |ps|
              && r.pos.2 == ps[r.standingOn.value].surfaceCenter.2))
  {
  }

  /** The player after walking, gravity and the landing scan, before the wall
      check. */
  function Fallen(s: PlayerState, delta: real, facing: CameraPosition, ps: seq<Platform>): PlayerState
  {
    Landed(Walked(s, delta, facing), delta, facing, ps)
  }

  /** The player after the wall check: moved out from behind walls, and its
      mark cleared when nothing hides it. */
  function WallChecked(s: PlayerState, facing: CameraPosition, ps: seq<Platform>): (r: PlayerState)
    ensures r.movement == s.movement && r.zVel == s.zVel && r.standingOn == s.standingOn
    ensures r.behindWall ==> s.behindWall
    ensures !s.behindWall ==> !AnyBehind(ps, facing, r.pos)
  {
    WallScanUnmarked(ps, |ps|, facing, s.pos);
    var scan := WallScan(ps, |ps|, facing, s.pos, s.behindWall);
    s.(pos := scan.0, behindWall := s.behindWall && scan.1)
  }

  /** `tick`: nothing while the camera turns; else walk, fall, land, and get
      out from behind walls. */
  function PlayerTicked(s: PlayerState, delta: real, turning: Option<CameraDirection>, facing: CameraPosition, ps: seq<Platform>): (r: PlayerState)
    ensures forall f :: f != Jumping ==> Keeps(s.movement, r.movement, f)
  {
    if turning.Some? then s else WallChecked(Fallen(s, delta, facing, ps), facing, ps)
  }

  /** While the camera turns, `tick` changes nothing. */
  lemma TickFrozen(s: PlayerState, delta: real, turning: Option<CameraDirection>, facing: CameraPosition, ps: seq<Platform>)
    requires turning.Some?
    ensures PlayerTicked(s, delta, turning, facing, ps) == s
  {
  }

  /** Otherwise the player walks exactly along the axis the camera shows; the
      wall check may then move it only in depth. */
  lemma TickWalksAcross(s: PlayerState, delta: real, facing: CameraPosition, ps: seq<Platform>)
    ensures var r := PlayerTicked(s, delta, None, facing, ps);
      var step := Walk(facing, s.movement, delta);
      Across(r.pos, facing) == Across(s.pos, facing) + step.0 + step.1
  {
    var m := Fallen(s, delta, facing, ps);
    WallScanMovesDepthOnly(ps, |ps|, facing, m.pos, m.behindWall);
  }

  /** After a tick the fall speed is capped, and a falling player stands on nothing. */
  lemma TickVelocity(s: PlayerState, delta: real, facing: CameraPosition, ps: seq<Platform>)
    ensures var r := PlayerTicked(s, delta, None, facing, ps);
      r.zVel >= -MaxFallVel && (r.zVel < 0.0 ==> r.standingOn.None?)
  {
  }

  /** Platform p is under the player during this tick: after walking, over
      the z interval the player sweeps under gravity. */
  predicate Catches(s: PlayerState, delta: real, facing: CameraPosition, p: Platform)
  {
    var w := Walked(s, delta, facing);
    var z := FreeZ(w, delta);
    Supports(p, facing, w.pos, Min(w.pos.2, z), Max(w.pos.2, z))
  }

  /** Landing: when falling, the player lands on the LAST catching platform
      in index order, takes its surface height, stops, and stops jumping. */
  lemma TickLands(s: PlayerState, delta: real, facing: CameraPosition, ps: seq<Platform>, i: nat)
    requires FreeZVel(s, delta) < 0.0
    requires i < |ps| && Catches(s, delta, facing, ps[i])
    requires forall j :: i < j < |ps| ==> !Catches(s, delta, facing, ps[j])
    ensures var r := PlayerTicked(s, delta, None, facing, ps);
      r.standingOn == Some(i) && r.pos.2 == ps[i].surfaceCenter.2 && r.zVel == 0.0
      && !Has(r.movement, Jumping)
  {
    var w := Walked(s, delta, facing);
    var z := FreeZ(w, delta);
    WalkedFallsAlike(s, delta, facing);
    assert LastSupport(ps, |ps|, facing, w.pos, Min(w.pos.2, z), Max(w.pos.2, z)) == Some(i);
    var m := Landed(w, delta, facing, ps);
    assert m.standingOn == Some(i) && m.pos.2 == ps[i].surfaceCenter.2 && m.zVel == 0.0;
    WallScanMovesDepthOnly(ps, |ps|, facing, m.pos, m.behindWall);
  }

  /** With no catching platform the player moves freely under gravity, and
      leaves its platform once it falls. */
  lemma TickFallsFreely(s: PlayerState, delta: real, facing: CameraPosition, ps: seq<Platform>)
    requires forall j :: 0 <= j < |ps| ==> !Catches(s, delta, facing, ps[j])
    ensures var r := PlayerTicked(s, delta, None, facing, ps);
      r.pos.2 == FreeZ(s, delta) && r.zVel == FreeZVel(s, delta)
      && r.standingOn == (if FreeZVel(s, delta) < 0.0 then None else s.standingOn)
  {
    var w := Walked(s, delta, facing);
    var z := FreeZ(w, delta);
    WalkedFallsAlike(s, delta, facing);
    assert LastSupport(ps, |ps|, facing, w.pos, Min(w.pos.2, z), Max(w.pos.2, z)).None?;
    var m := Landed(w, delta, facing, ps);
    assert m.pos.2 == z && m.zVel == FreeZVel(s, delta);
    WallScanMovesDepthOnly(ps, |ps|, facing, m.pos, m.behindWall);
  }

  /** A rising (or hovering) player never lands, whatever lies in the swept
      interval: it follows gravity and keeps its platform and its flags. */
  lemma RisingNeverLands(s: PlayerState, delta: real, facing: CameraPosition, ps: seq<Platform>)
    requires FreeZVel(s, delta) >= 0.0
    ensures var r := PlayerTicked(s, delta, None, facing, ps);
      r.pos.2 == FreeZ(s, delta) && r.zVel == FreeZVel(s, delta)
      && r.standingOn == s.standingOn && r.movement == s.movement
  {
    var w := Walked(s, delta, facing);
    WalkedFallsAlike(s, delta, facing);
    var m := Landed(w, delta, facing, ps);
    assert m.pos.2 == FreeZ(s, delta) && m.standingOn == s.standingOn;
    WallScanMovesDepthOnly(ps, |ps|, facing, m.pos, m.behindWall);
  }

  /** A player not marked behind a wall ends the tick hidden by no platform. */
  lemma TickLeavesUnmarkedPlayerInView(s: PlayerState, delta: real, facing: CameraPosition, ps: seq<Platform>)
    requires !s.behindWall
    ensures var r := PlayerTicked(s, delta, None, facing, ps);
      !r.behindWall && !AnyBehind(ps, facing, r.pos)
  {
    var m := Fallen(s, delta, facing, ps);
    assert !m.behindWall;
  }

  /** A player spawned just above a wide platform at the origin, facing S,
      lands on it within one tick of a tenth of a second. */
  lemma LandingExample(s: PlayerState, p: Platform)
    requires s == Spawned((0.0, 0.0, 0.1)) && p == Platform((0.0, 0.0, 0.0), (8.0, 8.0), 1.0)
    ensures var r := PlayerTicked(s, 0.1, None, S, [p]);
      r.standingOn == Some(0) && r.pos.2 == 0.0 && r.zVel == 0.0
  {
    ExampleCatches(s, p);
    TickLandsOnOnlyPlatform(s, 0.1, S, p);
  }

  /** On a level of one platform, a falling player that platform catches lands on it. */
  lemma TickLandsOnOnlyPlatform(s: PlayerState, delta: real, facing: CameraPosition, p: Platform)
    requires FreeZVel(s, delta) < 0.0 && Catches(s, delta, facing, p)
    ensures var r := PlayerTicked(s, delta, None, facing, [p]);
      r.standingOn == Some(0) && r.pos.2 == p.surfaceCenter.2 && r.zVel == 0.0
  {
    TickLands(s, delta, facing, [p], 0);
  }

  /** The example's one step: the spawned player falls, sweeping [-0.15, 0.1],
      and the platform at height 0 catches it. */
  lemma ExampleCatches(s: PlayerState, p: Platform)
    requires s == Spawned((0.0, 0.0, 0.1))
    requires p == Platform((0.0, 0.0, 0.0), (8.0, 8.0), 1.0)
    ensures FreeZVel(s, 0.1) < 0.0 && Catches(s, 0.1, S, p)
  {
    assert s == PlayerState((0.0, 0.0, 0.1), 0, 0.0, None, false);
    assert FreeZ(s, 0.1) == -0.15 && FreeZVel(s, 0.1) == -5.0;
    assert Supports(p, S, s.pos, -0.15, 0.1);
    assert Walked(s, 0.1, S) == s;
  }

  /** `tick` never sets `behind_wall`; it clears it exactly when no platform
      hides the player any more. */
  lemma TickBehindWall(s: PlayerState, delta: real, facing: CameraPosition, ps: seq<Platform>)
    ensures PlayerTicked(s, delta, None, facing, ps).behindWall ==> s.behindWall
    ensures s.behindWall ==>
      var r := PlayerTicked(s, delta, None, facing, ps);
      var m := Fallen(s, delta, facing, ps);
      r.pos == m.pos && (r.behindWall <==> AnyBehind(ps, facing, m.pos))
  {
    var m := Fallen(s, delta, facing, ps);
    if s.behindWall {
      WallScanWhenMarked(ps, |ps|, facing, m.pos);
    }
  }

  /** `tick` keeps every player steady. */
  lemma TickPreservesSteady(s: PlayerState, delta: real, turning: Option<CameraDirection>, facing: CameraPosition, ps: seq<Platform>)
    requires Steady(s)
    ensures Steady(PlayerTicked(s, delta, turning, facing, ps))
  {
  }

  /** `tick` only ever stands the player on one of the level's platforms. */
  lemma TickStandsWithin(s: PlayerState, delta: real, turning: Option<CameraDirection>, facing: CameraPosition, ps: seq<Platform>)
    requires StandsWithin(s, |ps|)
    ensures StandsWithin(PlayerTicked(s, delta, turning, facing, ps), |ps|)
  {
  }

  // ---------------------------------------------------------------------------
  // The player object

  class Player {
    var pos: Point
    const movement: Movement
    var zVel: real
    var standingOn: Option<nat>
    var behindWall: bool

    ghost function State(): PlayerState
      reads this, movement
    {
      PlayerState(pos, movement.bits, zVel, standingOn, behindWall)
    }

    ghost predicate Valid()
      reads this, movement
    {
      Steady(State())
    }

    constructor (pos: Point)
      ensures Valid() && fresh(movement) && State() == Spawned(pos)
    {
      this.pos := pos;
      zVel := 0.0;
      standingOn := None;
      movement := new Movement.Empty();
      behindWall := false;
    }

    method PressJump()
      requires Valid()
      modifies this, movement
      ensures Valid() && State() == JumpPressed(old(State()))
    {
      if standingOn.Some? {
        if movement.Contains(PressingDown) {
          pos := (pos.0, pos.1, pos.2 - DropNudge);
        } else {
          zVel := JumpVel;
          standingOn := None;
          movement.Insert(Jumping);
        }
      }
    }

    method ReleaseJump()
      requires Valid()
      modifies movement
      ensures Valid() && State() == JumpReleased(old(State()))
    {
      movement.Remove(Jumping);
    }

    method SnapFromCameraPosition(camPos: CameraPosition, level: Level)
      requires Valid() && StandsWithin(State(), |level.platforms|)
      modifies this
      ensures Valid() && State() == SnappedFromCamera(old(State()), camPos, level.platforms)
    {
      if standingOn.Some? {
        var platform := level.platforms[standingOn.value];
        SnapToPlatform(camPos, platform);
      }
      ghost var snapped := pos;
      var i := 0;
      while i < |level.platforms|
        invariant 0 <= i <= |level.platforms|
        invariant pos == snapped && behindWall == old(behindWall)
        invariant zVel == old(zVel) && standingOn == old(standingOn)
        invariant forall k :: 0 <= k < i ==> !BehindWall(pos, camPos, level.platforms[k])
      {
        if BehindWall(pos, camPos, level.platforms[i]) {
          behindWall := true;
          break;
        }
        i := i + 1;
      }
    }

    method SnapToPlatform(camPos: CameraPosition, platform: Platform)
      modifies this
      ensures pos == SnappedToPlatform(old(pos), camPos, platform)
      ensures zVel == old(zVel) && standingOn == old(standingOn) && behindWall == old(behindWall)
    {
      var selfCoord := match camPos
        case S | N => pos.0
        case E | W => pos.1;
      var platCoord := match camPos
        case S | N => platform.surfaceCenter.0
        case E | W => platform.surfaceCenter.1;
      var platDim := match camPos
        case S | N => platform.surfaceDim.0
        case E | W => platform.surfaceDim.1;
      if Abs(selfCoord - platCoord) > 0.5 * platDim + 0.5 {
        var v := match camPos
          case S | W => platCoord - 0.5 * platDim + 0.5
          case N | E => platCoord + 0.5 * platDim - 0.5;
        match camPos {
          case S | N => pos := (v, pos.1, pos.2);
          case E | W => pos := (pos.0, v, pos.2);
        }
      }
    }

    method Tick(delta: real, camera: Camera, level: Level)
      requires Valid()
      modifies this, movement
      ensures Valid()
      ensures State() == PlayerTicked(old(State()), delta, camera.Direction(), camera.Position(), level.platforms)
    {
      if camera.Direction().Some? {
        return;
      }
      var facing := camera.Position();
      WalkStep(delta, facing);
      FallAndLand(delta, facing, level.platforms);
      LeaveWalls(facing, level.platforms);
      TickPreservesSteady(old(State()), delta, None, facing, level.platforms);
    }

    /** The first part of `tick`: walk along the axis the camera shows. */
    method WalkStep(delta: real, facing: CameraPosition)
      modifies this
      ensures State() == Walked(old(State()), delta, facing)
    {
      var newPos := pos;
      if movement.MovingLeft() {
        match facing {
          case S => newPos := (newPos.0 - MoveVel * delta, newPos.1, newPos.2);
          case N => newPos := (newPos.0 + MoveVel * delta, newPos.1, newPos.2);
          case E => newPos := (newPos.0, newPos.1 - MoveVel * delta, newPos.2);
          case W => newPos := (newPos.0, newPos.1 + MoveVel * delta, newPos.2);
        }
      } else if movement.MovingRight() {
        match facing {
          case S => newPos := (newPos.0 + MoveVel * delta, newPos.1, newPos.2);
          case N => newPos := (newPos.0 - MoveVel * delta, newPos.1, newPos.2);
          case E => newPos := (newPos.0, newPos.1 + MoveVel * delta, newPos.2);
          case W => newPos := (newPos.0, newPos.1 - MoveVel * delta, newPos.2);
        }
      }
      pos := newPos;
    }

    /** The second part of `tick`: gravity, then, when falling, the scan of
        every platform in index order for one to land on. */
    method FallAndLand(delta: real, facing: CameraPosition, ps: seq<Platform>)
      modifies this, movement
      ensures State() == Landed(old(State()), delta, facing, ps)
    {
      var gravity := if movement.Contains(Jumping) then JumpGravity else DefaultGravity;
      var newZ := pos.2 + delta * (zVel - delta * 0.5 * gravity);
      var newZVel := Max(zVel - delta * gravity, -MaxFallVel);
      assert newZ == FreeZ(old(State()), delta) && newZVel == FreeZVel(old(State()), delta);

      if newZVel < 0.0 {
        movement.Remove(Jumping);
        var zLower := Min(pos.2, newZ);
        var zUpper := Max(pos.2, newZ);
        newZ, newZVel := LandingScan(facing, ps, zLower, zUpper, newZ, newZVel);
      }

      pos := (pos.0, pos.1, newZ);
      zVel := newZVel;
      if zVel < 0.0 {
        standingOn := None;
      }
    }

    /** The landing loop of `tick`: every platform in index order, no early
        exit; each one that supports the player overwrites the landing height,
        the speed and `standingOn`, so the last one wins. */
    method LandingScan(facing: CameraPosition, ps: seq<Platform>, zLower: real, zUpper: real, z: real, v: real)
      returns (newZ: real, newZVel: real)
      modifies this
      ensures pos == old(pos) && zVel == old(zVel) && behindWall == old(behindWall)
      ensures var hit := LastSupport(ps, |ps|, facing, pos, zLower, zUpper);
        if hit.Some? then
          newZ == ps[hit.value].surfaceCenter.2 && newZVel == 0.0 && standingOn == hit
        else
          newZ == z && newZVel == v && standingOn == old(standingOn)
    {
      newZ, newZVel := z, v;
      var i := 0;
      while i < |ps|
        invariant 0 <= i <= |ps|
        invariant pos == old(pos) && zVel == old(zVel) && behindWall == old(behindWall)
        invariant var hit := LastSupport(ps, i, facing, pos, zLower, zUpper);
          if hit.Some? then
            newZ == ps[hit.value].surfaceCenter.2 && newZVel == 0.0 && standingOn == hit
          else
            newZ == z && newZVel == v && standingOn == old(standingOn)
      {
        var intersects := match facing
          case S | N => ps[i].IntersectionX(pos.0, 1.0, zLower, zUpper)
          case W | E => ps[i].IntersectionY(pos.1, 1.0, zLower, zUpper);
        if intersects {
          newZ := ps[i].surfaceCenter.2;
          newZVel := 0.0;
          standingOn := Some(i);
        }
        i := i + 1;
      }
    }

    /** The last part of `tick`: move the player out from behind any platform
        that hides it, unless it is marked behind a wall already, and clear the
        mark when nothing hides it. */
    method LeaveWalls(facing: CameraPosition, ps: seq<Platform>)
      modifies this
      ensures State() == WallChecked(old(State()), facing, ps)
    {
      var behindAny := false;
      var j := 0;
      while j < |ps|
        invariant 0 <= j <= |ps|
        invariant (pos, behindAny) == WallScan(ps, j, facing, old(pos), behindWall)
        invariant zVel == old(zVel) && behindWall == old(behindWall) && standingOn == old(standingOn)
      {
        var behind := BehindWall(pos, facing, ps[j]);
        behindAny := behindAny || behind;
        if behind && !behindWall {
          match facing {
            case S => pos := (pos.0, ps[j].surfaceCenter.1 - 0.5 * ps[j].surfaceDim.1 - 0.5, pos.2);
            case N => pos := (pos.0, ps[j].surfaceCenter.1 + 0.5 * ps[j].surfaceDim.1 + 0.5, pos.2);
            case W => pos := (ps[j].surfaceCenter.0 - 0.5 * ps[j].surfaceDim.0 - 0.5, pos.1, pos.2);
            case E => pos := (ps[j].surfaceCenter.0 + 0.5 * ps[j].surfaceDim.0 + 0.5, pos.1, pos.2);
          }
        }
        j := j + 1;
      }
      if !behindAny {
        behindWall := false;
      }
    }
  }
}
