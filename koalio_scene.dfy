// Revision A of the scene (PEMSuperKoalio/GameScene.swift): the 3x3 tile
// neighbourhood encoding, the per-frame collision pass against the walls
// layer, the frame driver with its game-over guard and win check, and the
// two-flag touch/key input handlers.
//
// The tile map is a parameter: `TileMap` carries the queries the scene makes
// of it as function values.

module KoalioScene {
  import opened Geometry
  import opened FrameTiming
  import opened KoalioPlayer

  /** GameScene.TileQueryPosition; its Swift raw values are given by RawValue. */
  datatype TileQueryPosition =
    | Above | AboveLeft | AboveRight | Below | BelowLeft | BelowRight | ToTheLeft | ToTheRight

  /** The raw value of each case: the cell's index, row by row, in the 3x3 grid around the player. */
  function RawValue(q: TileQueryPosition): (r: nat)
    ensures r <= 8 && r != 4
  {
    match q
    case AboveLeft => 0
    case Above => 1
    case AboveRight => 2
    case ToTheLeft => 3
    case ToTheRight => 5
    case BelowLeft => 6
    case Below => 7
    case BelowRight => 8
  }

  /**
   * The (column, row) tile offset a query position stands for, decoded from
   * its raw value as (raw % 3 - 1, raw / 3 - 1). Rows grow downward, so
   * "below" is one row further.
   */
  function Offset(q: TileQueryPosition): (o: (int, int))
    ensures -1 <= o.0 <= 1 && -1 <= o.1 <= 1 && o != (0, 0)
    ensures q == Below ==> o == (0, 1)
    ensures q == Above ==> o == (0, -1)
    ensures q == ToTheLeft ==> o == (-1, 0)
    ensures q == ToTheRight ==> o == (1, 0)
    ensures q == AboveLeft ==> o == (-1, -1)
    ensures q == AboveRight ==> o == (1, -1)
    ensures q == BelowLeft ==> o == (-1, 1)
    ensures q == BelowRight ==> o == (1, 1)
  {
    (RawValue(q) % 3 - 1, RawValue(q) / 3 - 1)
  }

  /** The order in which the collision pass visits the neighbours. */
  const QueryOrder: seq<TileQueryPosition> :=
    [Below, Above, ToTheLeft, ToTheRight, AboveLeft, AboveRight, BelowLeft, BelowRight]

  /** The eight cells around a tile, the tile itself excluded. */
  const Neighbourhood: set<(int, int)> :=
    {(-1, -1), (0, -1), (1, -1), (-1, 0), (1, 0), (-1, 1), (0, 1), (1, 1)}

  /** The visit order names every neighbouring cell exactly once. */
  lemma QueryOrderCoversNeighbourhood()
    ensures forall i, j :: 0 <= i < j < |QueryOrder| ==> Offset(QueryOrder[i]) != Offset(QueryOrder[j])
    ensures (set i | 0 <= i < |QueryOrder| :: Offset(QueryOrder[i])) == Neighbourhood
  {
    var image := set i | 0 <= i < |QueryOrder| :: Offset(QueryOrder[i]);
    assert Offset(QueryOrder[0]) == (0, 1);
    assert Offset(QueryOrder[1]) == (0, -1);
    assert Offset(QueryOrder[2]) == (-1, 0);
    assert Offset(QueryOrder[3]) == (1, 0);
    assert Offset(QueryOrder[4]) == (-1, -1);
    assert Offset(QueryOrder[5]) == (1, -1);
    assert Offset(QueryOrder[6]) == (-1, 1);
    assert Offset(QueryOrder[7]) == (1, 1);
    assert Neighbourhood <= image;
  }

  /**
   * What the scene asks of the loaded PEMTileMap: the (fractional) tile
   * coordinate of a point, the frame of the walls-layer tile at an integer
   * tile coordinate if there is one, the map's size in tiles and in points,
   * and the centre of tile (7, 15) where the player spawns.
   */
  datatype TileMap = TileMap(
    tileCoords: Point -> Point,
    wallAt: ((int, int)) -> Option<Rect>,
    sizeInTiles: Size,
    sizeInPoints: Size,
    spawnPoint: Point)

  /** The part of the player the collision pass reads and corrects. */
  datatype Body = Body(desired: Point, velocity: Point, onGround: bool)

  /**
   * How a collision pass ends: it runs through all eight neighbours and the
   * corrected body is committed, or it finds the player below the map and
   * stops (the body keeps the corrections made so far, nothing is committed).
   */
  datatype PassOutcome = Committed(body: Body) | Fell(body: Body)

  /** The tile row of `desired` lies more than one row past the map's bottom row count. */
  predicate FellOffMap(m: TileMap, desired: Point)
    ensures 0.0 <= m.sizeInTiles.height ==>
              (FellOffMap(m, desired) ==> m.sizeInTiles.height < Trunc(m.tileCoords(desired).y) as real) &&
              (!FellOffMap(m, desired) ==> Trunc(m.tileCoords(desired).y) as real <= m.sizeInTiles.height + 1.0)
  {
    m.tileCoords(desired).y > m.sizeInTiles.height + 1.0
  }

  /** The integer tile coordinate of neighbour `q` of the tile that holds `desired`. */
  function NeighbourCoord(m: TileMap, desired: Point, q: TileQueryPosition): (c: (int, int))
    ensures -1 <= c.0 - Trunc(m.tileCoords(desired).x) <= 1 && -1 <= c.1 - Trunc(m.tileCoords(desired).y) <= 1
    ensures c != (Trunc(m.tileCoords(desired).x), Trunc(m.tileCoords(desired).y))
  {
    (Trunc(m.tileCoords(desired).x) + Offset(q).0, Trunc(m.tileCoords(desired).y) + Offset(q).1)
  }

  lemma NeighbourCoordOf(m: TileMap, desired: Point, q: TileQueryPosition, c: (int, int))
    requires c.0 == Trunc(m.tileCoords(desired).x) + Offset(q).0
    requires c.1 == Trunc(m.tileCoords(desired).y) + Offset(q).1
    ensures c == NeighbourCoord(m, desired, q)
  {
  }

  /**
   * The overlap, of positive area, between the player's collision box at
   * `desired` and the wall tile in neighbour `q`; None when that cell has no
   * wall tile or the two do not overlap.
   */
  function WallOverlap(m: TileMap, frame: Rect, position: Point, desired: Point, q: TileQueryPosition): (r: Option<Rect>)
    ensures r.Some? ==> 0.0 < r.value.width && 0.0 < r.value.height
    ensures r.Some? <==> (m.wallAt(NeighbourCoord(m, desired, q)).Some? &&
                          Intersects(CollisionBoundingBox(frame, position, desired), m.wallAt(NeighbourCoord(m, desired, q)).value))
    ensures r.Some? ==>
              r.value == Intersection(CollisionBoundingBox(frame, position, desired), m.wallAt(NeighbourCoord(m, desired, q)).value)
  {
    match m.wallAt(NeighbourCoord(m, desired, q))
    case None => None
    case Some(tile) =>
      var box := CollisionBoundingBox(frame, position, desired);
      if Intersects(box, tile) then Some(Intersection(box, tile)) else None
  }

  /**
   * One iteration of the pass for neighbour `q`: only a wall overlap below
   * the player has an effect, raising it by the overlap's height, stopping
   * its vertical motion and grounding it.
   */
  function Step(m: TileMap, frame: Rect, position: Point, q: TileQueryPosition, b: Body): (r: Body)
    ensures r.desired.x == b.desired.x && r.velocity.x == b.velocity.x
    ensures q != Below || WallOverlap(m, frame, position, b.desired, q).None? ==> r == b
    ensures q == Below && WallOverlap(m, frame, position, b.desired, q).Some? ==>
              && r.desired.y == b.desired.y + WallOverlap(m, frame, position, b.desired, q).value.height
              && r.desired.y > b.desired.y
              && r.velocity.y == 0.0
              && r.onGround
  {
    match WallOverlap(m, frame, position, b.desired, q)
    case None => b
    case Some(overlap) =>
      if q == Below then Body(Point(b.desired.x, b.desired.y + overlap.height), Point(b.velocity.x, 0.0), true)
      else b
  }

  /**
   * The rest of the pass from the `i`-th neighbour of QueryOrder on: before
   * each neighbour the fell-off check is made on the current tentative
   * position, then the neighbour's correction is applied.
   */
  function ResolveFrom(m: TileMap, frame: Rect, position: Point, i: nat, b: Body): (r: PassOutcome)
    ensures r.body.desired.x == b.desired.x && r.body.velocity.x == b.velocity.x
    ensures r.body.desired.y >= b.desired.y
    ensures (b.onGround ==> b.velocity.y == 0.0) ==> (r.body.onGround ==> r.body.velocity.y == 0.0)
    decreases |QueryOrder| - i
  {
    if i >= |QueryOrder| then Committed(b)
    else if FellOffMap(m, b.desired) then Fell(b)
    else ResolveFrom(m, frame, position, i + 1, Step(m, frame, position, QueryOrder[i], b))
  }

  /** A whole collision pass for a player at `position` heading for `desired` with `velocity`. */
  function Pass(m: TileMap, frame: Rect, position: Point, desired: Point, velocity: Point): (r: PassOutcome)
    ensures r.body.desired.x == desired.x && r.body.velocity.x == velocity.x
    ensures r.body.desired.y >= desired.y
    ensures r.body.onGround ==> r.body.velocity.y == 0.0
  {
    ResolveFrom(m, frame, position, 0, Body(desired, velocity, false))
  }

  /** Past the first neighbour nothing is corrected: what is left is the repeated fell-off check. */
  lemma {:induction false} TailOnlyChecksFall(m: TileMap, frame: Rect, position: Point, i: nat, b: Body)
    requires 1 <= i < |QueryOrder|
    ensures ResolveFrom(m, frame, position, i, b) == if FellOffMap(m, b.desired) then Fell(b) else Committed(b)
    decreases |QueryOrder| - i
  {
    if !FellOffMap(m, b.desired) {
      assert QueryOrder[i] != Below;
      assert Step(m, frame, position, QueryOrder[i], b) == b;
      if i + 1 < |QueryOrder| {
        TailOnlyChecksFall(m, frame, position, i + 1, b);
      }
    }
  }

  /**
   * The pass in closed form: at most one correction (from the tile below),
   * with the fell-off check made before it and once more after it.
   */
  lemma PassClosedForm(m: TileMap, frame: Rect, position: Point, desired: Point, velocity: Point)
    ensures Pass(m, frame, position, desired, velocity) ==
      var b0 := Body(desired, velocity, false);
      var b1 := Step(m, frame, position, Below, b0);
      if FellOffMap(m, desired) then Fell(b0)
      else if FellOffMap(m, b1.desired) then Fell(b1)
      else Committed(b1)
  {
    var b0 := Body(desired, velocity, false);
    if !FellOffMap(m, desired) {
      TailOnlyChecksFall(m, frame, position, 1, Step(m, frame, position, QueryOrder[0], b0));
    }
  }

  /** After the pass the player is grounded exactly when a wall tile below overlapped its box. */
  lemma PassGroundsIffWallBelow(m: TileMap, frame: Rect, position: Point, desired: Point, velocity: Point)
    ensures Pass(m, frame, position, desired, velocity).body.onGround <==>
            !FellOffMap(m, desired) && WallOverlap(m, frame, position, desired, Below).Some?
  {
    PassClosedForm(m, frame, position, desired, velocity);
  }

  /**
   * A wall overlap below lifts the tentative position by exactly the
   * overlap's height and zeroes the vertical velocity; the horizontal
   * components are untouched.
   */
  lemma PassLandsOnWallBelow(m: TileMap, frame: Rect, position: Point, desired: Point, velocity: Point, overlap: Rect)
    requires !FellOffMap(m, desired)
    requires WallOverlap(m, frame, position, desired, Below) == Some(overlap)
    ensures Pass(m, frame, position, desired, velocity).body ==
            Body(Point(desired.x, desired.y + overlap.height), Point(velocity.x, 0.0), true)
  {
    PassClosedForm(m, frame, position, desired, velocity);
  }

  /**
   * Without a wall overlap below, overlaps in every other direction and
   * empty cells change nothing: the pass commits the tentative position as
   * it is, unless the player is off the map.
   */
  lemma PassWithoutWallBelowIsInert(m: TileMap, frame: Rect, position: Point, desired: Point, velocity: Point)
    requires WallOverlap(m, frame, position, desired, Below).None?
    ensures Pass(m, frame, position, desired, velocity) ==
            if FellOffMap(m, desired) then Fell(Body(desired, velocity, false))
            else Committed(Body(desired, velocity, false))
  {
    PassClosedForm(m, frame, position, desired, velocity);
  }

  /** The goal test of checkForWin: past 95% of the map's width. */
  predicate ReachedGoal(m: TileMap, x: real)
    ensures 0.0 < m.sizeInPoints.width ==>
              (m.sizeInPoints.width <= x ==> ReachedGoal(m, x)) && (x <= 0.0 ==> !ReachedGoal(m, x))
  {
    x > m.sizeInPoints.width * 0.95
  }

  /** touchDownAtPoint on the flags: the right half of the screen jumps, the left half marches. */
  function TouchDown(c: Controls, x: real, halfWidth: real): (r: Controls)
    ensures x > halfWidth ==> r.mightAsWellJump && r.forwardMarch == c.forwardMarch
    ensures x <= halfWidth ==> r.forwardMarch && r.mightAsWellJump == c.mightAsWellJump
  {
    if x > halfWidth then c.(mightAsWellJump := true) else c.(forwardMarch := true)
  }

  /**
   * touchMovedToPoint on the flags: a touch that crosses the midline swaps
   * which one of the two is held; one that stays on its side changes nothing.
   */
  function TouchMoved(c: Controls, previousX: real, x: real, halfWidth: real): (r: Controls)
    ensures previousX <= halfWidth < x ==> !r.forwardMarch && r.mightAsWellJump
    ensures x <= halfWidth < previousX ==> r.forwardMarch && !r.mightAsWellJump
    ensures (x > halfWidth) == (previousX > halfWidth) ==> r == c
  {
    if x > halfWidth && previousX <= halfWidth then Controls(false, true)
    else if previousX > halfWidth && x <= halfWidth then Controls(true, false)
    else c
  }

  /** touchUpAtPoint on the flags: releases the flag of the half the touch ends in. */
  function TouchUp(c: Controls, x: real, halfWidth: real): (r: Controls)
    ensures x > halfWidth ==> !r.mightAsWellJump && r.forwardMarch == c.forwardMarch
    ensures x <= halfWidth ==> !r.forwardMarch && r.mightAsWellJump == c.mightAsWellJump
  {
    if x > halfWidth then c.(mightAsWellJump := false) else c.(forwardMarch := false)
  }

  const KeyRightArrow: int := 124
  const KeySpace: int := 49

  /** keyDown on the flags: the right arrow marches, space jumps, other keys are ignored. */
  function KeyDown(c: Controls, keyCode: int): (r: Controls)
    ensures keyCode == KeyRightArrow ==> r == c.(forwardMarch := true)
    ensures keyCode == KeySpace ==> r == c.(mightAsWellJump := true)
    ensures keyCode != KeyRightArrow && keyCode != KeySpace ==> r == c
  {
    match keyCode
    case 124 => c.(forwardMarch := true)
    case 49 => c.(mightAsWellJump := true)
    case _ => c
  }

  /** keyUp on the flags: releasing the right arrow or space clears its flag, other keys are ignored. */
  function KeyUp(c: Controls, keyCode: int): (r: Controls)
    ensures keyCode == KeyRightArrow ==> r == c.(forwardMarch := false)
    ensures keyCode == KeySpace ==> r == c.(mightAsWellJump := false)
    ensures keyCode != KeyRightArrow && keyCode != KeySpace ==> r == c
  {
    match keyCode
    case 124 => c.(forwardMarch := false)
    case 49 => c.(mightAsWellJump := false)
    case _ => c
  }

  /** Pressing and then releasing a key leaves the flags as releasing it alone would. */
  lemma KeyPressThenRelease(c: Controls, keyCode: int)
    ensures KeyUp(KeyDown(c, keyCode), keyCode) == KeyUp(c, keyCode)
  {
  }

  /** A touch that goes down and comes up at the same spot leaves the flags as lifting it alone would. */
  lemma TouchPressThenRelease(c: Controls, x: real, halfWidth: real)
    ensures TouchUp(TouchDown(c, x, halfWidth), x, halfWidth) == TouchUp(c, x, halfWidth)
  {
  }

  class GameScene {
    const size: Size
    const tileMap: Option<TileMap>
    const mapLoaded: bool
    const player: Player?
    var previousTouchLocation: Point
    var previousUpdateTime: real
    var gameOver: bool

    /** A loaded map comes with its player. */
    ghost predicate Valid() {
      mapLoaded ==> tileMap.Some? && player != null
    }

    /**
     * init(size:) with loadMap: `loaded` is the map PEMTileMap produced, or
     * None when it could not be loaded; a loaded map gets a new player at
     * its spawn point.
     */
    constructor (size: Size, loaded: Option<TileMap>)
      ensures Valid()
      ensures this.size == size && tileMap == loaded && mapLoaded == loaded.Some?
      ensures loaded.None? ==> player == null
      ensures loaded.Some? ==> && fresh(player)
                               && player.position == loaded.value.spawnPoint
                               && player.velocity == Origin
                               && !player.onGround && player.Input() == Controls(false, false)
      ensures previousTouchLocation == Origin && previousUpdateTime == 0.0 && !gameOver
    {
      this.size := size;
      tileMap := loaded;
      previousTouchLocation := Origin;
      previousUpdateTime := 0.0;
      gameOver := false;
      if loaded.Some? {
        var p := new Player();
        p.position := loaded.value.spawnPoint;
        player := p;
        mapLoaded := true;
      } else {
        player := null;
        mapLoaded := false;
      }
    }

    /**
     * update(_:): nothing happens before the map is loaded or once the game
     * is over. Otherwise the player is advanced by the clamped delta, the
     * collision pass runs (with `frame` the sprite's current frame) and the
     * goal is checked.
     */
    method Update(currentTime: real, frame: Rect)
      requires Valid()
      modifies this`previousUpdateTime, this`gameOver, player
      ensures !mapLoaded || old(gameOver) ==> unchanged(this) && (player != null ==> unchanged(player))
      ensures mapLoaded && !old(gameOver) ==>
        var delta := ClampDelta(currentTime - old(previousUpdateTime));
        var v := NextVelocity(old(player.velocity), delta, old(player.onGround), old(player.mightAsWellJump), old(player.forwardMarch));
        var out := Pass(tileMap.value, frame, old(player.position), Add(old(player.position), MultiplyScalar(v, delta)), v);
        && previousUpdateTime == currentTime
        && player.desiredPosition == out.body.desired
        && player.velocity == out.body.velocity
        && player.onGround == out.body.onGround
        && player.position == (if out.Fell? then old(player.position) else out.body.desired)
        && player.Input() == old(player.Input())
        && gameOver == (out.Fell? || ReachedGoal(tileMap.value, player.position.x))
    {
      if !mapLoaded {
        return;
      }
      if gameOver {
        return;
      }

      var delta := currentTime - previousUpdateTime;
      if delta > 0.02 {
        delta := 0.02;
      }
      previousUpdateTime := currentTime;

      player.Update(delta);
      CheckForAndResolveCollisionsForPlayer(frame);
      CheckForWin();
    }

    /**
     * checkForAndResolveCollisionsForPlayer: clears onGround, then visits
     * the neighbours in QueryOrder, each time recomputing the collision box
     * and tile coordinate from the current tentative position. Falling off
     * the map ends the game and leaves without committing; otherwise the
     * corrected tentative position becomes the position.
     */
    method CheckForAndResolveCollisionsForPlayer(frame: Rect)
      requires Valid() && mapLoaded
      modifies this`gameOver, player`position, player`desiredPosition, player`velocity, player`onGround
      ensures
        var out := Pass(tileMap.value, frame, old(player.position), old(player.desiredPosition), old(player.velocity));
        && player.desiredPosition == out.body.desired
        && player.velocity == out.body.velocity
        && player.onGround == out.body.onGround
        && player.position == (if out.Fell? then old(player.position) else out.body.desired)
        && gameOver == (old(gameOver) || out.Fell?)
    {
      var m := tileMap.value;
      var p := player;
      ghost var outcome := Pass(m, frame, p.position, p.desiredPosition, p.velocity);
      p.onGround := false;

      var i := 0;
      while i < |QueryOrder|
        invariant 0 <= i <= |QueryOrder|
        invariant p.position == old(p.position) && gameOver == old(gameOver)
        invariant ResolveFrom(m, frame, p.position, i, Body(p.desiredPosition, p.velocity, p.onGround)) == outcome
      {
        var tileQueryPosition := QueryOrder[i];
        ghost var before := Body(p.desiredPosition, p.velocity, p.onGround);
        var playerRect := CollisionBoundingBox(frame, p.position, p.desiredPosition);
        var playerCoord := m.tileCoords(p.desiredPosition);

        if playerCoord.y > m.sizeInTiles.height + 1.0 {
          GameOver(false);
          return;
        }

        var tileColumn := RawValue(tileQueryPosition) % 3;
        var tileRow := RawValue(tileQueryPosition) / 3;
        var tileCoord := (Trunc(playerCoord.x) + tileColumn - 1, Trunc(playerCoord.y) + tileRow - 1);
        assert Offset(tileQueryPosition) == (tileColumn - 1, tileRow - 1);
        NeighbourCoordOf(m, before.desired, tileQueryPosition, tileCoord);

        var tileFound := m.wallAt(tileCoord);
        if tileFound.Some? {
          var tileRect := tileFound.value;
          if Intersects(playerRect, tileRect) {
            var intersection := Intersection(playerRect, tileRect);
            match tileQueryPosition {
              case Below =>
                p.desiredPosition := Point(p.desiredPosition.x, p.desiredPosition.y + intersection.height);
                p.velocity := Point(p.velocity.x, 0.0);
                p.onGround := true;
              case Above =>
              case ToTheLeft =>
              case ToTheRight =>
              case AboveLeft =>
              case AboveRight =>
              case BelowLeft =>
              case BelowRight =>
            }
          }
        }
        assert Body(p.desiredPosition, p.velocity, p.onGround) == Step(m, frame, p.position, tileQueryPosition, before);
        i := i + 1;
      }

      p.position := p.desiredPosition;
    }

    /** checkForWin: once the player is past 95% of the map's width the game is over. */
    method CheckForWin()
      requires Valid()
      modifies this`gameOver
      ensures gameOver == (old(gameOver) || (mapLoaded && ReachedGoal(tileMap.value, player.position.x)))
    {
      if !mapLoaded {
        return;
      }
      if player.position.x > tileMap.value.sizeInPoints.width * 0.95 {
        GameOver(true);
      }
    }

    /** gameOver(won:): ends the game whether it was won or lost. */
    method GameOver(won: bool)
      modifies this`gameOver
      ensures gameOver
    {
      gameOver := true;
    }

    /** touchDownAtPoint: remembers the touch and sets the flag of its half of the screen. */
    method TouchDownAtPoint(pos: Point)
      modifies this`previousTouchLocation, player
      ensures player != null ==> unchanged(player`position, player`desiredPosition, player`velocity, player`onGround)
      ensures previousTouchLocation == pos
      ensures player != null ==> player.Input() == TouchDown(old(player.Input()), pos.x, size.width * 0.5)
    {
      previousTouchLocation := pos;
      if player != null {
        if pos.x > size.width * 0.5 {
          player.mightAsWellJump := true;
        } else {
          player.forwardMarch := true;
        }
      }
    }

    /** touchMovedToPoint: swaps the flags when the touch crosses the midline, and remembers the touch. */
    method TouchMovedToPoint(pos: Point)
      modifies this`previousTouchLocation, player
      ensures player != null ==> unchanged(player`position, player`desiredPosition, player`velocity, player`onGround)
      ensures previousTouchLocation == pos
      ensures player != null ==>
        player.Input() == TouchMoved(old(player.Input()), old(previousTouchLocation.x), pos.x, size.width * 0.5)
    {
      var halfWidth := size.width * 0.5;
      if pos.x > halfWidth && previousTouchLocation.x <= halfWidth {
        if player != null {
          player.forwardMarch := false;
          player.mightAsWellJump := true;
        }
      } else if previousTouchLocation.x > halfWidth && pos.x <= halfWidth {
        if player != null {
          player.forwardMarch := true;
          player.mightAsWellJump := false;
        }
      }
      previousTouchLocation := pos;
    }

    /** touchUpAtPoint: clears the flag of the half of the screen the touch ends in. */
    method TouchUpAtPoint(pos: Point)
      modifies player
      ensures player != null ==> unchanged(player`position, player`desiredPosition, player`velocity, player`onGround)
      ensures player != null ==> player.Input() == TouchUp(old(player.Input()), pos.x, size.width * 0.5)
    {
      if player != null {
        if pos.x > size.width * 0.5 {
          player.mightAsWellJump := false;
        } else {
          player.forwardMarch := false;
        }
      }
    }

    /** keyDown(with:) on macOS. */
    method KeyDownWith(keyCode: int)
      modifies player
      ensures player != null ==> unchanged(player`position, player`desiredPosition, player`velocity, player`onGround)
      ensures player != null ==> player.Input() == KeyDown(old(player.Input()), keyCode)
    {
      if player != null {
        if keyCode == KeyRightArrow {
          player.forwardMarch := true;
        } else if keyCode == KeySpace {
          player.mightAsWellJump := true;
        }
      }
    }

    /** keyUp(with:) on macOS. */
    method KeyUpWith(keyCode: int)
      modifies player
      ensures player != null ==> unchanged(player`position, player`desiredPosition, player`velocity, player`onGround)
      ensures player != null ==> player.Input() == KeyUp(old(player.Input()), keyCode)
    {
      if player != null {
        if keyCode == KeyRightArrow {
          player.forwardMarch := false;
        } else if keyCode == KeySpace {
          player.mightAsWellJump := false;
        }
      }
    }
  }
}
