# fez-test game core, in Dafny

A model of the game-logic core of a small Fez-like platformer written in Rust:

- **Camera** (`src/camera.rs`): the camera looks at the level from one of four
  sides (N, E, S, W). `move_` starts a quarter turn (L or R) or, while one is
  animating, replaces the single queued turn. `tick` advances the animation
  phase by ±delta/0.5, and when the phase reaches a full quarter turn it
  commits one step of the L or R table, resets the phase and promotes the
  queued turn. `view_matrix` rotates by a base angle per facing plus
  phase·90°; only that angle is modelled.
- **Level** (`src/level.rs`): axis-aligned platforms given by the centre of
  their top surface, its extent and a height, and the point-over-surface
  intersection test.
- **Player** (`src/player.rs`): the `Movement` key-state bitset ("last
  pressed wins, release falls back to the held key"), jumping, and `tick`. A
  tick does nothing while the camera turns. Otherwise it walks along the axis
  the camera shows, applies two-rate gravity with a capped fall speed, and,
  when falling, scans the platforms in index order for one to land on (the last
  match wins). Then it moves the player out from behind any wall that hides it.
  The player also has the two snaps used when the camera turns.

Files: `common.dfy` (Option, points, abs/min/max), `camera.dfy` (module
`Cameras`), `level.dfy` (module `Levels`), `player.dfy` (module `Players`).

State that the Rust code updates in place is a Dafny `class`: `Camera`,
`Movement` (the bitset, a `bv8`) and `Player`. Each state-changing method is
proved against a pure function of the old state. For example, `Camera.Tick`
ensures `State() == Ticked(old(State()), delta)` and `Player.Tick` ensures
`State() == PlayerTicked(old(State()), ...)`. The properties are lemmas about
those functions. Positions, velocities and the phase are `real`s. The camera
and level that `Player::tick` reads are parameters, and the level is a record
holding a `seq<Platform>`.

`Player::tick` is one Rust function. Here it is one method, `Player.Tick`, that
runs three helper methods in the order of its three sections:
`WalkStep`, `FallAndLand` and `LeaveWalls`; the landing loop of the second
section is the method `LandingScan`. This keeps each proof small. The
loops keep the source's order: platforms in index order, no early exit, and
`pos` updated inside the wall loop while the scan continues.

### Choices the code makes

- The queued-turn policy: any request made while a turn animates replaces the
  queued one, whatever its direction. The newest request wins (`camera.rs:37`).
- The camera invariant only goes one way. An idle camera has phase 0, but a
  camera can have a turn pending at phase 0, right after `move_`.
- `snap_from_camera_position` does not clear `standing_on` and does not move the
  player out from behind a wall. It only snaps along the shown axis onto the
  standing platform, and then only ever *sets* `behind_wall`. `tick` only ever
  *clears* it, and moves the player out only while it is *not* set.
- `snap_to_platform` puts an out-of-range player on one fixed edge per facing
  (the low edge for S and W, the high edge for N and E). It does not use the
  nearer edge.

### Assumption

`src/player.rs` calls `Camera::direction()`, `Camera::position()` and
`Platform::intersection_x/_y`, which `src/camera.rs` and `src/level.rs` do not
define. The two getters are added as `Camera.Direction()` and
`Camera.Position()`. `Platform.IntersectionX/Y` are given the one-axis
analogue of `intersection`: a body `extra` wide overlaps the surface along
that axis (`|x − cx| ≤ 0.5·dx + 0.5·extra`), and the surface lies in the swept
`[zLower, zUpper]`. This body is an assumption. The landing lemmas (`TickLands`,
`TickFallsFreely`) use only the predicate `Supports`/`Catches` built on them,
never that body. The one exception is the concrete `LandingExample`.

## Model

| member | source | states |
|---|---|---|
| Cameras.Turn | src/camera.rs:53-66 | one step of the L or R table; the settled angle after it is the base angle before it −90° (L) or +90° (R), modulo 360 |
| Cameras.TurnInverse | src/camera.rs:53-66 | the L and R tables are inverse permutations |
| Cameras.FourTurnsCycle | src/camera.rs:53-66 | four turns the same way return to the start and no fewer do |
| Cameras.Initial | src/camera.rs:24-32 | a new camera is idle, has the given facing, and is consistent (phase 0) |
| Cameras.Camera.constructor | src/camera.rs:24-32 | `Camera::new`: idle, no queued turn, phase 0, zoom 0 |
| Cameras.MoveWhenIdle | src/camera.rs:34-36 | `move_` on an idle camera sets `direction` only; queue, phase and facing unchanged |
| Cameras.MoveWhileTurning | src/camera.rs:37 | a single `move_` while turning sets the queued turn to `dir` and changes nothing else; after two such calls the newest wins; direction, phase and facing unchanged |
| Cameras.Camera.Move | src/camera.rs:34-39 | the in-place update equals `Moved` of the old state and keeps the camera consistent |
| Cameras.TickWhenIdle | src/camera.rs:44 | `tick` on an idle camera changes nothing |
| Cameras.TickPhaseBound | src/camera.rs:45-51 | after a tick of a turning camera, abs(phase) < 1 |
| Cameras.TickCompletes | src/camera.rs:50-69 | reaching a full quarter turn commits one table step, promotes the queued turn, empties the queue and resets the phase to 0 |
| Cameras.TickInProgress | src/camera.rs:45-50 | short of a full turn only the phase moves, by ±delta/0.5 |
| Cameras.MovePreservesConsistent | src/camera.rs:34-39 | `move_` keeps "idle ⇒ phase 0" and abs(phase) < 1 |
| Cameras.TickPreservesConsistent | src/camera.rs:41-72 | `tick` keeps "idle ⇒ phase 0" and abs(phase) < 1 |
| Cameras.RunPreservesConsistent | src/camera.rs:24-72 | every sequence of `move_`/`tick` calls from a consistent camera stays consistent |
| Cameras.Camera.Tick | src/camera.rs:41-72 | the in-place update equals `Ticked` of the old state, keeps the camera consistent, zoom untouched |
| Cameras.BaseAngle | src/camera.rs:75-79 | the settled angle of each facing lies in [0, 360) |
| Cameras.ViewAngle | src/camera.rs:75-80 | a settled camera is at its facing's base angle; a consistent camera is strictly within 90° of it |
| Cameras.Moved | src/camera.rs:34-39 | `move_` never changes the facing or the phase, leaves a turn animating, keeps a running turn, and records `dir` as the running or the queued turn |
| Cameras.Ticked | src/camera.rs:41-72 | `tick` either keeps the facing together with the running and queued turns, or takes exactly one table step, promotes the queued turn, empties the queue and resets the phase |
| Cameras.ViewAngleContinuous | src/camera.rs:74-80 | the view angle the animation reaches at a full quarter turn equals, modulo 360, the angle of the new facing at phase 0 |
| Levels.Platform.New | src/level.rs:14-21 | `Platform::new` stores exactly its geometry arguments |
| Levels.Platform.Intersection | src/level.rs:23-33 | `Some` iff the point is over the surface (edges inclusive) and the surface height is in [z_lower, z_upper]; the value is always the surface height |
| Levels.IntersectionEmptyInterval | src/level.rs:28 | an interval with z_lower > z_upper hits nothing |
| Levels.IntersectionMonotone | src/level.rs:28 | widening [z_lower, z_upper] never turns a hit into a miss |
| Players.Inserted | src/player.rs:51-53 | `insert` (and so `press_down`) sets its flag and leaves every other flag as it was |
| Players.Removed | src/player.rs:54-56 | `remove` (and so `release_down`) clears its flag and leaves every other flag as it was |
| Players.PressedLeft | src/player.rs:23-27 | after `press_left` left is pressed and moving, right is not moving, other keys unchanged, and the flag invariant holds |
| Players.ReleasedLeft | src/player.rs:28-35 | after `release_left` left is neither pressed nor moving; moving right iff it was moving or right is held; the flag invariant is preserved |
| Players.PressedRight | src/player.rs:37-41 | the mirror image of `press_left` |
| Players.ReleasedRight | src/player.rs:42-49 | the mirror image of `release_left` |
| Players.FallBackToHeldKey | src/player.rs:23-49 | `press_left`, `press_right`, `release_right` leaves moving left and not moving right |
| Players.FallBackToHeldKeyRight | src/player.rs:23-49 | `press_right`, `press_left`, `release_left` leaves moving right and not moving left |
| Players.Movement.Empty | src/player.rs:3-13 | `Movement::empty()` holds no flag and satisfies the flag invariant |
| Players.Movement.Insert | src/player.rs:3-13 | the bitflags `insert` equals `Inserted` |
| Players.Movement.Remove | src/player.rs:3-13 | the bitflags `remove` equals `Removed` |
| Players.Movement.PressLeft | src/player.rs:23-27 | the in-place update equals `PressedLeft` |
| Players.Movement.ReleaseLeft | src/player.rs:28-35 | the in-place update equals `ReleasedLeft` |
| Players.Movement.PressRight | src/player.rs:37-41 | the in-place update equals `PressedRight` |
| Players.Movement.ReleaseRight | src/player.rs:42-49 | the in-place update equals `ReleasedRight` |
| Players.Movement.PressDown | src/player.rs:51-53 | the in-place update sets only the down flag |
| Players.Movement.ReleaseDown | src/player.rs:54-56 | the in-place update clears only the down flag |
| Players.Spawned | src/player.rs:79-87 | a new player is at the given position, at rest, on nothing, not behind a wall, with an empty bitset (no pressing, moving or jumping flag), and steady |
| Players.Player.constructor | src/player.rs:79-87 | `Player::new` builds `Spawned(pos)` with its own fresh bitset |
| Players.JumpPressed | src/player.rs:89-100 | `press_jump` changes nothing for a player on no platform; it never moves the player sideways or up, never touches `behind_wall`, and at most leaves the platform |
| Players.JumpOutcomes | src/player.rs:89-100 | `press_jump` is a no-op on nothing; with down held it only lowers z by 0.01; otherwise it sets z_vel = 14, leaves the platform, and sets only the jump flag |
| Players.JumpPreservesSteady | src/player.rs:89-100 | `press_jump` keeps the flag invariant, the fall-speed cap and "falling ⇒ on nothing" |
| Players.Player.PressJump | src/player.rs:89-100 | the in-place update equals `JumpPressed` and keeps the player steady |
| Players.JumpReleased | src/player.rs:102-104 | `release_jump` clears only the jump flag, changes no other field, and keeps the player steady |
| Players.Player.ReleaseJump | src/player.rs:102-104 | the in-place update equals `JumpReleased` |
| Players.Walk | src/player.rs:152-172 | walking moves only x when facing S/N and only y when facing E/W, by exactly 6·delta in size when a moving flag is set, and not at all otherwise; turned into the south view, moving left is always 6·delta towards −x and moving right towards +x, so left and right are the same ways on screen for every facing (moving left wins when both flags are set) |
| Players.WalkLeftMirrorsRight | src/player.rs:152-169 | for each facing, the left displacement is the negation of the right one |
| Players.BehindWall | src/player.rs:232-254 | a hidden player has its feet below the platform's top and its one-unit-tall body reaching above the platform's bottom, and it overlaps the platform along the axis the camera shows |
| Players.BehindWallIsRotatedSouth | src/player.rs:232-254 | each of the four `behind_wall` cases is the S case with the world rotated about z so the facing looks south |
| Players.SnappedOut | src/player.rs:213-226 | the wall snap leaves the player no longer behind that platform, moving only the depth coordinate |
| Players.WallScanMovesDepthOnly | src/player.rs:212-226 | the wall loop changes neither z nor the shown horizontal coordinate |
| Players.WallScanWhenMarked | src/player.rs:212-226 | a player already marked behind a wall is not moved, and the loop reports whether some platform hides it |
| Players.NearerStaysInView | src/player.rs:232-254 | moving a player towards the camera along the depth axis never hides it behind a platform that did not hide it |
| Players.WallScanUnmarked | src/player.rs:212-226 | for a player not marked behind a wall, the loop only moves it towards the camera, and afterwards none of the visited platforms hides it, although it was moved mid-scan |
| Players.WallScanClear | src/player.rs:212-229 | if the loop finds nothing in front, it moved nothing and no platform hides the player |
| Players.SnappedToPlatform | src/player.rs:120-143 | only the shown horizontal coordinate changes; afterwards it is within 0.5·dim + 0.5 of the platform centre (dim ≥ 0); a player already within range is untouched |
| Players.SnapIdempotent | src/player.rs:120-143 | snapping twice equals snapping once, for every platform |
| Players.Player.SnapToPlatform | src/player.rs:120-143 | the in-place update equals `SnappedToPlatform` on `pos` and changes no other field |
| Players.SnappedFromCamera | src/player.rs:106-118 | the snap keeps key flags, velocity and platform; on a platform the position is `SnappedToPlatform` onto that platform under the new facing, on no platform it is unchanged; afterwards `behind_wall` holds iff it held before or some platform hides the player |
| Players.Player.SnapFromCameraPosition | src/player.rs:106-118 | the in-place update, with its early-exit loop, equals `SnappedFromCamera` |
| Players.Gravity | src/player.rs:174-178 | gravity is between 25 and 50, and below 50 exactly while the jump flag is set |
| Players.LandedOutcomes | src/player.rs:180-208 | gravity and landing move the player only vertically; it either follows gravity or stands at rest at the height of one of the level's platforms, and a newly stood-on platform is always such a landing |
| Players.WalkedFallsAlike | src/player.rs:172-181 | walking changes neither the height, the speed nor the gravity, so the free-fall values are the same before and after it |
| Players.WallChecked | src/player.rs:210-229 | the wall section keeps flags, speed and platform, never sets `behind_wall`, and leaves a player that was not marked hidden by no platform |
| Players.PlayerTicked | src/player.rs:145-229 | a tick changes no key flag other than the jump flag |
| Players.LastSupport | src/player.rs:189-200 | the landing scan's pick: the largest index that supports the player, or none when no platform does |
| Players.FreeZVel | src/player.rs:174-181 | the gravity-integrated speed is never below −24 |
| Players.TickFrozen | src/player.rs:146-148 | while the camera turns, `tick` changes no field |
| Players.TickWalksAcross | src/player.rs:152-172 | after a tick the shown horizontal coordinate has moved by exactly the walking step |
| Players.TickVelocity | src/player.rs:181-208 | after a tick z_vel ≥ −24, and z_vel < 0 implies standing on nothing |
| Players.TickLands | src/player.rs:184-201 | when falling, the player lands on the largest-index catching platform, takes its surface height, stops, and its jump flag is cleared |
| Players.TickFallsFreely | src/player.rs:174-208 | with no catching platform z and z_vel follow gravity alone, and a falling player leaves its platform |
| Players.LandingExample | src/player.rs:145-208 | a player spawned at z = 0.1 over an 8×8 platform at the origin, facing S, lands on platform 0 at z = 0 within one 0.1 s tick |
| Players.TickLandsOnOnlyPlatform | src/player.rs:184-201 | on a one-platform level, a falling player that the platform catches lands on it, at its height, at rest |
| Players.RisingNeverLands | src/player.rs:180-208 | a player whose new speed is not negative never lands, whatever platform lies in its swept interval: z and z_vel follow gravity, and its platform and flags are kept |
| Players.TickLeavesUnmarkedPlayerInView | src/player.rs:210-229 | a player not marked behind a wall ends the tick unmarked and hidden by no platform of the level |
| Players.TickBehindWall | src/player.rs:212-229 | `tick` never sets `behind_wall`; when it is set, the wall check does not move the player (its position is the one after walking and falling) and the mark stays iff some platform still hides it |
| Players.TickPreservesSteady | src/player.rs:145-229 | `tick` keeps the flag invariant, the fall-speed cap and "falling ⇒ on nothing" |
| Players.TickStandsWithin | src/player.rs:189-208 | `tick` only ever stands the player on an index of the level's platforms |
| Players.Player.Tick | src/player.rs:145-230 | the in-place update equals `PlayerTicked` of the old state, camera and level, and keeps the player steady |
| Players.Player.WalkStep | src/player.rs:152-172 | the walking section's update equals `Walked` |
| Players.Player.FallAndLand | src/player.rs:174-208 | the gravity and landing section equals `Landed` |
| Players.Player.LandingScan | src/player.rs:189-200 | the landing loop, in index order without early exit, leaves the height, speed and `standingOn` of the last supporting platform (`LastSupport`), or the free-fall values and the old platform when none supports |
| Players.Player.LeaveWalls | src/player.rs:210-229 | the wall section, with `pos` moved inside the loop, equals `WallChecked` |

## Left out

- The matrix part of `view_matrix` (`src/camera.rs:81-87`) is left out: rotation and scale matrices, trigonometry and `exp2` of the zoom. Only its angle is modelled (`ViewAngle`). So the zoom round trip is not modelled either. `zoom` is kept as a field that `tick` and `move_` do not touch.
- `f32` arithmetic: every quantity is an exact `real`. Rounding, NaN and tunnelling through thin platforms at large `delta` are not modelled.
- `Platform.color` and `Level.bg_color` are left out because they are display only.
- `Movement.moving_left`/`moving_right` and the camera getters are plain field reads (`Movement.MovingLeft()`, `Camera.Direction()`, ...). They are modelled without a contract of their own.
- `Players.SnappedFromCamera`, `Players.Player.SnapFromCameraPosition`: `level.platforms[i]` panics in Rust when the index is out of range. The model makes this a precondition (`StandsWithin`) rather than modelling the panic.
- Rendering, OpenGL resources, shaders, the window and event loop, and the wall-clock timing in `src/main.rs` are not part of this model. `delta` is a parameter.
