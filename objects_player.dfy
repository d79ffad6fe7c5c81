// Revision B of the player (PEMSuperKoalio/Objects/Player.swift): movement
// driven by a direction enum and a dead mode, a hard-set horizontal speed
// and no velocity clamp, plus its collision box.
//
// The globals `gravity`, `gameTileSize` and `playerSize` this revision reads
// are defined elsewhere in the repository; they are parameters here
// (`Globals`), fixed when the player is created.

module ObjectsPlayer {
  import opened Geometry

  datatype MovementDirection = Idle | Left | Right

  /** The values of the globals gravity, gameTileSize and playerSize. */
  datatype Globals = Globals(gravity: Point, gameTileSize: Size, playerSize: Size)

  const MovementDecelerationFactor: real := 0.9

  /** The player's jumpForce: an upward push of fifteen tile heights per second. */
  function JumpForce(g: Globals): Point {
    Point(0.0, g.gameTileSize.height * 15.0)
  }

  /** The player's movementForce: ten player widths per second. */
  function MovementForce(g: Globals): real {
    g.playerSize.width * 10.0
  }

  /** The part of the player that Player.update writes, besides desiredPosition. */
  datatype Motion = Motion(velocity: Point, onGround: bool, xScale: real)

  /** The horizontal speed the direction input selects for a live player. */
  function DirectedSpeed(g: Globals, direction: MovementDirection): real {
    match direction
    case Idle => 0.0
    case Left => -MovementForce(g)
    case Right => MovementForce(g)
  }

  /**
   * The state after one step of Player.update from `s`: gravity, then the
   * dead player's drag, then a jump (alive) or a stop (dead) when the jump
   * is requested on the ground, then, for a live player, the horizontal
   * speed and facing chosen by `direction`.
   */
  function NextMotion(g: Globals, s: Motion, delta: real, isDead: bool, shouldJump: bool, direction: MovementDirection): (r: Motion)
    ensures !isDead ==> r.velocity.x == DirectedSpeed(g, direction)
    ensures isDead ==> r.velocity.x == (s.velocity.x + g.gravity.x * delta) * MovementDecelerationFactor
    ensures r.onGround == (s.onGround && !(shouldJump && !isDead))
    ensures shouldJump && s.onGround && !isDead ==> r.velocity.y == s.velocity.y + g.gravity.y * delta + JumpForce(g).y
    ensures shouldJump && s.onGround && isDead ==> r.velocity.y == 0.0
    ensures !(shouldJump && s.onGround) ==> r.velocity.y == s.velocity.y + g.gravity.y * delta
    ensures r.xScale == (if isDead || direction == Idle then s.xScale else if direction == Left then -1.0 else 1.0)
  {
    var fallen := Add(s.velocity, MultiplyScalar(g.gravity, delta));
    var slowed := if isDead then Point(fallen.x * MovementDecelerationFactor, fallen.y) else fallen;
    var jumped :=
      if shouldJump && s.onGround then
        (if !isDead then Add(slowed, JumpForce(g)) else Point(slowed.x, 0.0))
      else slowed;
    var grounded := s.onGround && !(shouldJump && !isDead);
    if isDead then Motion(jumped, grounded, s.xScale)
    else match direction
      case Idle => Motion(Point(0.0, jumped.y), grounded, s.xScale)
      case Left => Motion(Point(-MovementForce(g), jumped.y), grounded, -1.0)
      case Right => Motion(Point(MovementForce(g), jumped.y), grounded, 1.0)
  }

  /** A live player moves sideways at exactly 0 or the movement force, whatever it did before. */
  lemma AliveSpeedIsDirected(g: Globals, s: Motion, delta: real, shouldJump: bool, direction: MovementDirection)
    ensures var r := NextMotion(g, s, delta, false, shouldJump, direction);
            r.velocity.x == 0.0 || r.velocity.x == MovementForce(g) || r.velocity.x == -MovementForce(g)
  {
  }

  /** A dead player ignores the direction input entirely. */
  lemma DeadIgnoresDirection(g: Globals, s: Motion, delta: real, shouldJump: bool, d1: MovementDirection, d2: MovementDirection)
    ensures NextMotion(g, s, delta, true, shouldJump, d1) == NextMotion(g, s, delta, true, shouldJump, d2)
  {
  }

  /** Once airborne, no step ever grounds the player: only the scene could, and this revision's scene never does. */
  lemma AirborneStaysAirborne(g: Globals, s: Motion, delta: real, isDead: bool, shouldJump: bool, direction: MovementDirection)
    requires !s.onGround
    ensures !NextMotion(g, s, delta, isDead, shouldJump, direction).onGround
  {
  }

  /**
   * Player.collisionBoundingBox: a box 2 points narrower than the sprite
   * and exactly one tile high, its bottom lowered by a quarter of the
   * height difference plus 2, moved by the pending displacement.
   */
  function CollisionBoundingBox(g: Globals, frame: Rect, size: Size, position: Point, desired: Point): (r: Rect)
    ensures r.width == size.width - 2.0 && r.height == g.gameTileSize.height
    ensures r.x == frame.x + 1.0 + (desired.x - position.x)
    ensures r.y == frame.y - (g.gameTileSize.height - size.height) * 0.25 - 2.0 + (desired.y - position.y)
  {
    var offset := Point(2.0, 2.0);
    var clippingHeight := g.gameTileSize.height - size.height;
    var boundingBox := Rect(frame.x + offset.x * 0.5, frame.y - clippingHeight * 0.25 - offset.y,
                            size.width - offset.x, size.height + clippingHeight);
    var diff := Subtract(desired, position);
    OffsetBy(boundingBox, diff.x, diff.y)
  }

  class Player {
    const globals: Globals
    const size: Size
    var isDead: bool
    var onGround: bool
    var shouldJump: bool
    var direction: MovementDirection
    var position: Point
    var desiredPosition: Point
    var velocity: Point
    var xScale: real

    /** The fields NextMotion describes, as one value. */
    function CurrentMotion(): Motion
      reads this
    {
      Motion(velocity, onGround, xScale)
    }

    /** Player.newPlayer: a live, idle sprite of size playerSize at rest at the origin. */
    constructor (globals: Globals)
      ensures this.globals == globals && size == globals.playerSize
      ensures !isDead && !onGround && !shouldJump && direction == Idle
      ensures position == Origin && desiredPosition == Origin && velocity == Origin && xScale == 1.0
    {
      this.globals := globals;
      size := globals.playerSize;
      isDead := false;
      onGround := false;
      shouldJump := false;
      direction := Idle;
      position := Origin;
      desiredPosition := Origin;
      velocity := Origin;
      xScale := 1.0;
    }

    /**
     * Player.update: advances velocity, onGround and facing by one step of
     * `delta` seconds and writes the tentative position reached with the new
     * velocity; the committed position and the inputs are left alone.
     */
    method Update(delta: real)
      modifies this`velocity, this`onGround, this`xScale, this`desiredPosition
      ensures CurrentMotion() == NextMotion(globals, old(CurrentMotion()), delta, isDead, shouldJump, direction)
      ensures desiredPosition == Add(position, MultiplyScalar(velocity, delta))
      ensures position == old(position)
      ensures isDead == old(isDead) && shouldJump == old(shouldJump) && direction == old(direction)
    {
      var gravityStep := MultiplyScalar(globals.gravity, delta);
      velocity := Add(velocity, gravityStep);

      if isDead {
        velocity := Point(velocity.x * MovementDecelerationFactor, velocity.y);
      }

      if shouldJump && onGround {
        if !isDead {
          velocity := Add(velocity, JumpForce(globals));
          onGround := false;
        } else {
          velocity := Point(velocity.x, 0.0);
        }
      }

      if !isDead {
        match direction {
          case Idle =>
            velocity := Point(0.0, velocity.y);
          case Left =>
            velocity := Point(-MovementForce(globals), velocity.y);
            xScale := -1.0;
          case Right =>
            velocity := Point(MovementForce(globals), velocity.y);
            xScale := 1.0;
        }
      }

      var velocityStep := MultiplyScalar(velocity, delta);
      desiredPosition := Add(position, velocityStep);
    }
  }
}
