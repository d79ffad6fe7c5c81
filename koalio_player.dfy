// Revision A of the player (PEMSuperKoalio/Player.swift): the kinematics step
// that turns input flags and a frame delta into a new velocity and a
// tentative position, and the collision box used by the scene's resolver.

module KoalioPlayer {
  import opened Geometry

  const Gravity: Point := Point(0.0, -450.0)
  const ForwardMove: Point := Point(800.0, 0.0)
  const JumpForce: Point := Point(0.0, 310.0)
  const JumpCutoff: real := 150.0
  const Drag: real := 0.9
  const MinMovement: Point := Point(0.0, -450.0)
  const MaxMovement: Point := Point(120.0, 250.0)

  /**
   * The velocity after one step of Player.update, from velocity `v`, step
   * `delta` and the three flags: gravity, 0.9 horizontal drag, the jump
   * impulse or the variable-jump cutoff, forward march acceleration, and
   * finally the clamp to [MinMovement, MaxMovement].
   */
  function NextVelocity(v: Point, delta: real, onGround: bool, mightAsWellJump: bool, forwardMarch: bool): (r: Point)
    ensures MinMovement.x <= r.x <= MaxMovement.x
    ensures MinMovement.y <= r.y <= MaxMovement.y
    ensures !mightAsWellJump ==> r.y <= JumpCutoff
  {
    var falling := Add(v, MultiplyScalar(Gravity, delta));
    var dragged := Point(falling.x * Drag, falling.y);
    var jumped :=
      if mightAsWellJump && onGround then Add(dragged, JumpForce)
      else if !mightAsWellJump && dragged.y > JumpCutoff then Point(dragged.x, JumpCutoff)
      else dragged;
    var marched := if forwardMarch then Add(jumped, MultiplyScalar(ForwardMove, delta)) else jumped;
    Point(Clamp(marched.x, MinMovement.x, MaxMovement.x), Clamp(marched.y, MinMovement.y, MaxMovement.y))
  }

  /** A grounded jump adds exactly +310 to the vertical velocity before the clamp. */
  lemma JumpImpulse(v: Point, delta: real, forwardMarch: bool)
    ensures NextVelocity(v, delta, true, true, forwardMarch).y
         == Clamp(v.y - 450.0 * delta + 310.0, MinMovement.y, MaxMovement.y)
  {
  }

  /**
   * The horizontal velocity is the old one after the 0.9 drag, plus
   * 800 * delta while forward march is held, clamped to [0, 120]; gravity
   * has no horizontal part and the jump rules touch only velocity.y.
   */
  lemma HorizontalStep(v: Point, delta: real, onGround: bool, mightAsWellJump: bool, forwardMarch: bool)
    ensures NextVelocity(v, delta, onGround, mightAsWellJump, forwardMarch).x
         == Clamp(0.9 * v.x + (if forwardMarch then 800.0 * delta else 0.0), MinMovement.x, MaxMovement.x)
  {
  }

  /** Without a grounded jump no impulse is added: gravity and the cutoff alone decide. */
  lemma NoJumpImpulse(v: Point, delta: real, onGround: bool, mightAsWellJump: bool, forwardMarch: bool)
    requires !(mightAsWellJump && onGround)
    ensures NextVelocity(v, delta, onGround, mightAsWellJump, forwardMarch).y
         == Clamp(if !mightAsWellJump && v.y - 450.0 * delta > JumpCutoff then JumpCutoff else v.y - 450.0 * delta,
                  MinMovement.y, MaxMovement.y)
  {
  }

  /** Holding the jump flag in the air does nothing that releasing it would not do, except lift the cutoff. */
  lemma AirborneJumpIsNoOp(v: Point, delta: real, forwardMarch: bool)
    requires v.y - 450.0 * delta <= JumpCutoff
    ensures NextVelocity(v, delta, false, true, forwardMarch) == NextVelocity(v, delta, false, false, forwardMarch)
  {
  }

  /**
   * From an in-bounds velocity, a non-negative step without a jump impulse
   * never speeds the player upward, and without forward march never speeds
   * it rightward.
   */
  lemma NoImpulseNoSpeedUp(v: Point, delta: real, onGround: bool, mightAsWellJump: bool, forwardMarch: bool)
    requires MinMovement.x <= v.x <= MaxMovement.x && MinMovement.y <= v.y <= MaxMovement.y
    requires 0.0 <= delta
    requires !(mightAsWellJump && onGround)
    ensures NextVelocity(v, delta, onGround, mightAsWellJump, forwardMarch).y <= v.y
    ensures !forwardMarch ==> NextVelocity(v, delta, onGround, mightAsWellJump, forwardMarch).x <= v.x
  {
  }

  /** Airborne with no input and a positive step, the fall speeds up until it reaches the -450 floor. */
  lemma GravityStrictlyAccelerates(v: Point, delta: real)
    requires MinMovement.y < v.y <= MaxMovement.y && 0.0 < delta
    ensures NextVelocity(v, delta, false, false, false).y < v.y
  {
  }

  /**
   * Player.collisionBoundingBox: the sprite frame narrowed by 2 points on
   * each horizontal side, moved by the pending displacement desired - position.
   */
  function CollisionBoundingBox(frame: Rect, position: Point, desired: Point): (r: Rect)
    ensures r.width == frame.width - 4.0 && r.height == frame.height
    ensures r.x == frame.x + 2.0 + (desired.x - position.x)
    ensures r.y == frame.y + (desired.y - position.y)
    ensures desired == position ==> r == InsetBy(frame, 2.0, 0.0)
  {
    var boundingBox := InsetBy(frame, 2.0, 0.0);
    var diff := Subtract(desired, position);
    OffsetBy(boundingBox, diff.x, diff.y)
  }

  /** The two input flags the scene's touch and key handlers drive. */
  datatype Controls = Controls(forwardMarch: bool, mightAsWellJump: bool)

  /** The flags and kinematic state of the player sprite. */
  class Player {
    var position: Point
    var desiredPosition: Point
    var velocity: Point
    var onGround: bool
    var forwardMarch: bool
    var mightAsWellJump: bool

    /** The input flags as one value. */
    function Input(): Controls
      reads this
    {
      Controls(forwardMarch, mightAsWellJump)
    }

    /** Player.newPlayer: a sprite at rest at the origin, no input held. */
    constructor ()
      ensures position == Origin && desiredPosition == Origin && velocity == Origin
      ensures !onGround && !forwardMarch && !mightAsWellJump
    {
      position := Origin;
      desiredPosition := Origin;
      velocity := Origin;
      onGround := false;
      forwardMarch := false;
      mightAsWellJump := false;
    }

    /**
     * Player.update: advances velocity by one step of `delta` seconds and
     * writes the tentative position reached with the new velocity. The
     * committed position and every flag are left alone; in particular a
     * jump does not clear onGround.
     */
    method Update(delta: real)
      modifies this`velocity, this`desiredPosition
      ensures velocity == NextVelocity(old(velocity), delta, onGround, mightAsWellJump, forwardMarch)
      ensures desiredPosition == Add(position, MultiplyScalar(velocity, delta))
      ensures position == old(position) && onGround == old(onGround)
      ensures forwardMarch == old(forwardMarch) && mightAsWellJump == old(mightAsWellJump)
    {
      var gravityStep := MultiplyScalar(Gravity, delta);
      var forwardMoveStep := MultiplyScalar(ForwardMove, delta);
      velocity := Add(velocity, gravityStep);

      velocity := Point(velocity.x * Drag, velocity.y);

      if mightAsWellJump && onGround {
        velocity := Add(velocity, JumpForce);
      } else if !mightAsWellJump && velocity.y > JumpCutoff {
        velocity := Point(velocity.x, JumpCutoff);
      }

      if forwardMarch {
        velocity := Add(velocity, forwardMoveStep);
      }

      velocity := Point(Clamp(velocity.x, MinMovement.x, MaxMovement.x), Clamp(velocity.y, MinMovement.y, MaxMovement.y));

      var velocityStep := MultiplyScalar(velocity, delta);
      desiredPosition := Add(position, velocityStep);
    }
  }
}
