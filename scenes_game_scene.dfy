// Revision B of the scene (PEMSuperKoalio/Scenes/GameScene.swift): the frame
// driver, whose collision pass in this revision only commits the tentative
// position, the death guard, and the macOS arrow-key direction handlers.
//
// No live code of this revision assigns the scene's player (the spawn code is
// disabled), so `player` may be null: `player?.` calls then do nothing, and
// the handlers that force-unwrap it require it.

module ScenesGameScene {
  import opened Geometry
  import opened FrameTiming
  import opened ObjectsPlayer

  const KeyRightArrow: int := 124
  const KeyLeftArrow: int := 123

  /** keyDown on the direction: the right arrow turns right, the left arrow left, other keys change nothing. */
  function DirectionAfterKeyDown(d: MovementDirection, keyCode: int): (r: MovementDirection)
    ensures keyCode == KeyRightArrow ==> r == Right
    ensures keyCode == KeyLeftArrow ==> r == Left
    ensures keyCode != KeyRightArrow && keyCode != KeyLeftArrow ==> r == d
  {
    match keyCode
    case 124 => Right
    case 123 => Left
    case _ => d
  }

  /**
   * keyUp on the direction: releasing an arrow stops the player only if it
   * is moving that way; any other release changes nothing.
   */
  function DirectionAfterKeyUp(d: MovementDirection, keyCode: int): (r: MovementDirection)
    ensures keyCode == KeyRightArrow ==> r == (if d == Right then Idle else d)
    ensures keyCode == KeyLeftArrow ==> r == (if d == Left then Idle else d)
    ensures keyCode != KeyRightArrow && keyCode != KeyLeftArrow ==> r == d
    ensures r == d || r == Idle
  {
    match keyCode
    case 124 => if d == Right then Idle else d
    case 123 => if d == Left then Idle else d
    case _ => d
  }

  /** Pressing and releasing the same arrow key leaves the player idle, whatever it was doing before. */
  lemma ArrowTapEndsIdle(d: MovementDirection, keyCode: int)
    requires keyCode == KeyRightArrow || keyCode == KeyLeftArrow
    ensures DirectionAfterKeyUp(DirectionAfterKeyDown(d, keyCode), keyCode) == Idle
  {
  }

  /**
   * Releasing the other arrow after pressing one keeps the pressed direction:
   * a late key-up from an earlier press does not cancel the newer one.
   */
  lemma OtherArrowReleaseKeepsDirection(d: MovementDirection, pressed: int, released: int)
    requires pressed == KeyRightArrow || pressed == KeyLeftArrow
    requires released == KeyRightArrow || released == KeyLeftArrow
    requires pressed != released
    ensures DirectionAfterKeyUp(DirectionAfterKeyDown(d, pressed), released) == DirectionAfterKeyDown(d, pressed)
  {
  }

  class GameScene {
    var player: Player?
    var previousUpdateTime: real

    /** init(size:): the scene starts with no player and a zero update time. */
    constructor ()
      ensures player == null && previousUpdateTime == 0.0
    {
      player := null;
      previousUpdateTime := 0.0;
    }

    /**
     * update(_:): advances the player, if there is one, by the clamped delta
     * and commits the tentative position it reaches.
     */
    method Update(currentTime: real)
      modifies this`previousUpdateTime, player
      ensures previousUpdateTime == currentTime
      ensures player != null ==>
        var delta := ClampDelta(currentTime - old(previousUpdateTime));
        var next := NextMotion(player.globals, old(player.CurrentMotion()), delta,
                               old(player.isDead), old(player.shouldJump), old(player.direction));
        && player.CurrentMotion() == next
        && player.desiredPosition == Add(old(player.position), MultiplyScalar(next.velocity, delta))
        && player.position == player.desiredPosition
        && player.isDead == old(player.isDead) && player.shouldJump == old(player.shouldJump)
        && player.direction == old(player.direction)
    {
      var delta := currentTime - previousUpdateTime;
      if delta > 0.02 {
        delta := 0.02;
      }
      previousUpdateTime := currentTime;

      if player != null {
        player.Update(delta);
      }
      CheckForCollisionsAndMovePlayer();
    }

    /** checkForCollisionsAndMovePlayer: commits the tentative position and does nothing else. */
    method CheckForCollisionsAndMovePlayer()
      modifies player
      ensures player != null ==> player.position == old(player.desiredPosition)
      ensures player != null ==> unchanged(player`isDead, player`onGround, player`shouldJump, player`direction,
                                           player`desiredPosition, player`velocity, player`xScale)
    {
      if player != null {
        player.position := player.desiredPosition;
      }
    }

    /** playerDiedSequence: marks the player dead; a player already dead is left as it is. */
    method PlayerDiedSequence()
      requires player != null
      modifies player`isDead
      ensures player.isDead
    {
      if player.isDead {
        return;
      }
      player.isDead := true;
    }

    /** keyDown(with:) on macOS; the arrow keys need a player. */
    method KeyDown(keyCode: int)
      requires keyCode == KeyRightArrow || keyCode == KeyLeftArrow ==> player != null
      modifies player
      ensures player != null ==> player.direction == DirectionAfterKeyDown(old(player.direction), keyCode)
      ensures player != null ==> unchanged(player`isDead, player`onGround, player`shouldJump, player`position,
                                           player`desiredPosition, player`velocity, player`xScale)
    {
      if keyCode == KeyRightArrow {
        player.direction := Right;
        return;
      } else if keyCode == KeyLeftArrow {
        player.direction := Left;
        return;
      }
    }

    /** keyUp(with:) on macOS; the arrow keys need a player. */
    method KeyUp(keyCode: int)
      requires keyCode == KeyRightArrow || keyCode == KeyLeftArrow ==> player != null
      modifies player
      ensures player != null ==> player.direction == DirectionAfterKeyUp(old(player.direction), keyCode)
      ensures player != null ==> unchanged(player`isDead, player`onGround, player`shouldJump, player`position,
                                           player`desiredPosition, player`velocity, player`xScale)
    {
      if keyCode == KeyRightArrow {
        if player.direction == Right {
          player.direction := Idle;
        }
        return;
      } else if keyCode == KeyLeftArrow {
        if player.direction == Left {
          player.direction := Idle;
        }
        return;
      }
    }
  }
}
