# SuperKoalio movement and collision, modelled in Dafny

This project models the per-frame movement and collision step of the
PEMSuperKoalio platformer. The player is a sprite with a committed
`position`, a tentative `desiredPosition`, a `velocity` and an `onGround`
flag. Each frame the scene advances the player's velocity, computes where
that would take it, resolves that tentative position against the tiles
of the walls layer, and commits it.

The repository holds two revisions of the scene and the player, and each is
its own pair of modules:

- **Revision A**: `PEMSuperKoalio/Player.swift` becomes `KoalioPlayer` and
  `PEMSuperKoalio/GameScene.swift` becomes `KoalioScene`. The player has two
  input flags, `forwardMarch` and `mightAsWellJump`. It accelerates forward
  and its velocity is clamped. The scene runs a collision pass over the
  eight neighbouring tiles and ends the game when the player falls off the
  map or reaches the goal.
- **Revision B**: `PEMSuperKoalio/Objects/Player.swift` becomes
  `ObjectsPlayer` and `PEMSuperKoalio/Scenes/GameScene.swift` becomes
  `ScenesGameScene`. The player has a direction (`idle`, `left`, `right`)
  and a dead mode. Its horizontal speed is set outright and its velocity is
  not clamped. The collision pass is disabled, so the scene only commits the
  tentative position.

Two shared modules sit under both revisions. `Geometry` holds points,
sizes and rectangles over `real`, the point arithmetic, clamping,
truncation and rectangle overlap. `FrameTiming` holds the 20 ms frame-delta
clamp that both scenes apply.

The tile map is a parameter. `KoalioScene.TileMap` carries the queries the
scene makes as function values: the tile coordinate of a point, the
walls-layer tile frame at an integer tile coordinate, the map size in tiles
and in points, and the spawn point. The sprite's `frame` is also passed in.
Within one collision pass it does not change, because the pass does not
assign `position` until it commits.

Things the proofs establish about revision A's collision pass:

- Only the tile below the player is ever corrected against. The other seven
  neighbours are visited, but all they do is repeat the fell-off check
  (`TailOnlyChecksFall`, `PassClosedForm`).
- After the pass, `onGround` holds exactly when a wall tile below overlapped
  the collision box (`PassGroundsIffWallBelow`).
- A below overlap raises the tentative position by exactly the overlap's
  height and zeroes the vertical velocity (`PassLandsOnWallBelow`).

In revision B no live code assigns the scene's `player`: the spawn code is
disabled. So `update` only advances `previousUpdateTime`, and an arrow key
on macOS force-unwraps a nil player. The model keeps `player` nullable. It
states each method for the case where a player is present and follows
Swift's `player?.` (do nothing when nil) and `player!` (required) exactly.

## What the live code does not do

Parts of the collision code are commented out or never reached, and the
model follows the live code:

- **Hazards**: the hazards layer is loaded (`PEMSuperKoalio/GameScene.swift:76`)
  but never queried. No hazard scan is modelled.
- **Directions other than below**: the above and side corrections are
  commented out (`PEMSuperKoalio/GameScene.swift:145-151`). The diagonal cases
  do nothing. Only the tile below corrects the player.
- **Jumping in revision A**: a jump does not clear `onGround`. The collision
  pass clears it at the start of every pass instead.
- **Fell-off check**: it is made before every neighbour, on the current
  tentative position, not once before the scan. When it fires, corrections
  already made stay on the player and `position` is not assigned.
- **Horizontal speed in revision A**: the player accelerates by 800·delta
  while `forwardMarch` is held, after a 0.9 drag. The speed is then clamped
  to [0, 120], so the player can never move left.
- **Revision B**: `onGround` is never set to true by live code, so the
  player of that revision can never jump.

## Model

| member | source | states |
|---|---|---|
| `Geometry.Clamp` | PEMSuperKoalio/Player.swift:51 | The clamped value lies in [lo, hi]. It equals the input when the input is already inside, and the nearer bound otherwise. |
| `Geometry.Trunc` | PEMSuperKoalio/GameScene.swift:128 | `Int(_:)` on a CGFloat rounds toward zero: the result lies within 1 of the input, on the side nearer zero. |
| `Geometry.Intersects` | PEMSuperKoalio/GameScene.swift:134 | Two rectangles intersect exactly when both have positive width and height and each starts before the other ends on both axes. The test is therefore symmetric. |
| `Geometry.Intersection` | PEMSuperKoalio/GameScene.swift:134-135 | The overlap of two intersecting rectangles has positive width and height and lies inside both. Each of its edges is an edge of one of them. |
| `FrameTiming.ClampDelta` | PEMSuperKoalio/GameScene.swift:96-100 | The step handed to the player is min(elapsed, 0.02): never above 0.02 or the elapsed time, and equal to one of them. |
| `FrameTiming.HitchesCollapse` | PEMSuperKoalio/GameScene.swift:98-100 | Any frame of 20 ms or longer is simulated as exactly one 20 ms step. |
| `FrameTiming.ShortFramesPassThrough` | PEMSuperKoalio/Scenes/GameScene.swift:138-142 | Elapsed times up to 0.02, negative ones included, reach the player unchanged. |
| `KoalioPlayer.NextVelocity` | PEMSuperKoalio/Player.swift:21-51 | After a step, velocity.x lies in [0, 120] and velocity.y in [-450, 250]. Without the jump flag, velocity.y is at most the 150 cutoff. |
| `KoalioPlayer.HorizontalStep` | PEMSuperKoalio/Player.swift:22-51 | The new velocity.x is clamp(0.9 · v.x + 800 · delta when forwardMarch is held, 0, 120). Gravity has no horizontal part and the jump rules leave velocity.x alone. |
| `KoalioPlayer.JumpImpulse` | PEMSuperKoalio/Player.swift:34-38 | Holding jump on the ground adds exactly +310 to velocity.y after gravity and before the clamp. |
| `KoalioPlayer.NoJumpImpulse` | PEMSuperKoalio/Player.swift:37-42 | Otherwise no impulse is added: velocity.y is gravity's result, cut to 150 when jump is released, then clamped. |
| `KoalioPlayer.AirborneJumpIsNoOp` | PEMSuperKoalio/Player.swift:37-42 | In the air, below the cutoff, holding jump gives the same velocity as not holding it. |
| `KoalioPlayer.NoImpulseNoSpeedUp` | PEMSuperKoalio/Player.swift:22-51 | From an in-bounds velocity with delta >= 0 and no jump impulse, velocity.y does not increase. Without forward march, velocity.x does not increase either. |
| `KoalioPlayer.GravityStrictlyAccelerates` | PEMSuperKoalio/Player.swift:22-28 | Airborne with no input and delta > 0, velocity.y strictly decreases until it reaches the -450 floor. |
| `KoalioPlayer.CollisionBoundingBox` | PEMSuperKoalio/Player.swift:57-60 | The box is the frame narrowed by 2 on each horizontal side (width - 4, same height), moved by desired - position. When the two positions are equal it is just the inset frame. |
| `KoalioPlayer.Player.constructor` | PEMSuperKoalio/Player.swift:14-18 | A new player is at rest at the origin, not grounded, with no input held. |
| `KoalioPlayer.Player.Update` | PEMSuperKoalio/Player.swift:21-55 | The new velocity is NextVelocity of the old one. desiredPosition = position + velocity·delta with the new velocity. position, onGround and both input flags are unchanged. |
| `KoalioScene.RawValue` | PEMSuperKoalio/GameScene.swift:12-21 | Each query position's raw value is a cell index of the 3x3 grid, 0 to 8, and never 4, the player's own cell. |
| `KoalioScene.Offset` | PEMSuperKoalio/GameScene.swift:12-21 | Decoding a raw value as (raw % 3 - 1, raw / 3 - 1) gives below (0,+1), above (0,-1), left (-1,0), right (+1,0) and the four corners to the diagonals. No offset is (0,0). |
| `KoalioScene.QueryOrderCoversNeighbourhood` | PEMSuperKoalio/GameScene.swift:113 | The eight query positions in visit order have pairwise distinct offsets, and together they cover exactly the eight cells around the player's tile. |
| `KoalioScene.FellOffMap` | PEMSuperKoalio/GameScene.swift:119-121 | For a map of non-negative height H, a player counted as fallen stands in a tile row past H. A player not counted as fallen stands in a row of at most H + 1. |
| `KoalioScene.NeighbourCoord` | PEMSuperKoalio/GameScene.swift:126-128 | The probed cell is within one column and one row of the tile holding the desired position, and is never that tile itself. |
| `KoalioScene.WallOverlap` | PEMSuperKoalio/GameScene.swift:126-135 | An overlap is reported exactly when the neighbour cell has a wall tile that the collision box at the current desired position intersects. The reported overlap is the intersection of that box and that tile's frame, and it has positive width and height. |
| `KoalioScene.Step` | PEMSuperKoalio/GameScene.swift:130-161 | One neighbour never changes x or velocity.x. Only a below overlap has an effect: it raises desired.y by exactly the overlap's height, sets velocity.y to 0 and sets onGround. Every other case leaves the player as it was. |
| `KoalioScene.ResolveFrom` | PEMSuperKoalio/GameScene.swift:116-165 | The rest of the pass never changes the tentative x position or the horizontal velocity, and never lowers the tentative y position. A grounded player it leaves has velocity.y 0, provided that held on entry. |
| `KoalioScene.Pass` | PEMSuperKoalio/GameScene.swift:112-165 | A whole pass, started with onGround cleared, keeps x and velocity.x, only ever raises the tentative y position, and leaves the player grounded only with velocity.y 0. |
| `KoalioScene.TailOnlyChecksFall` | PEMSuperKoalio/GameScene.swift:116-124 | From the second neighbour on, the pass changes nothing. It falls off exactly when the current desired position is past the map, and otherwise commits the player as it is. |
| `KoalioScene.PassClosedForm` | PEMSuperKoalio/GameScene.swift:112-168 | A pass is: clear onGround, check fell-off, apply the below correction, check fell-off again, commit. |
| `KoalioScene.PassGroundsIffWallBelow` | PEMSuperKoalio/GameScene.swift:114-142 | After the pass, onGround holds exactly when the player was on the map and a wall tile below overlapped its box. |
| `KoalioScene.PassLandsOnWallBelow` | PEMSuperKoalio/GameScene.swift:139-142 | A below overlap of height h leaves desired = (x, y + h), velocity = (vx, 0) and onGround set. |
| `KoalioScene.PassWithoutWallBelowIsInert` | PEMSuperKoalio/GameScene.swift:144-160 | Without a below overlap, overlaps in the other seven directions and empty cells change nothing. The pass commits the tentative position unchanged, or falls off exactly when the player is past the map. |
| `KoalioScene.ReachedGoal` | PEMSuperKoalio/GameScene.swift:176 | On a map of positive width, reaching its right edge always passes the goal and x <= 0 never does. |
| `KoalioScene.TouchDown` | PEMSuperKoalio/GameScene.swift:188-196 | A touch right of the midline sets mightAsWellJump and any other touch sets forwardMarch. The other flag is kept. |
| `KoalioScene.TouchMoved` | PEMSuperKoalio/GameScene.swift:198-210 | Crossing the midline rightward leaves only mightAsWellJump set, and leftward only forwardMarch. Staying on one side changes nothing. |
| `KoalioScene.TouchUp` | PEMSuperKoalio/GameScene.swift:212-218 | Lifting a touch clears the flag of the half it ends in and keeps the other. |
| `KoalioScene.KeyDown` | PEMSuperKoalio/GameScene.swift:273-282 | Key 124 sets forwardMarch, key 49 sets mightAsWellJump, and any other key changes nothing. |
| `KoalioScene.KeyUp` | PEMSuperKoalio/GameScene.swift:284-293 | Key 124 clears forwardMarch, key 49 clears mightAsWellJump, and any other key changes nothing. |
| `KoalioScene.KeyPressThenRelease` | PEMSuperKoalio/GameScene.swift:273-293 | Pressing and then releasing a key leaves the flags as releasing it alone would. |
| `KoalioScene.TouchPressThenRelease` | PEMSuperKoalio/GameScene.swift:188-218 | A touch going down and up at one spot leaves the flags as lifting it alone would. |
| `KoalioScene.GameScene.constructor` | PEMSuperKoalio/GameScene.swift:58-86 | A loaded map makes mapLoaded true and creates a fresh, idle player at the spawn point. A failed load leaves no map and no player. The game is not over and both remembered values start at zero. |
| `KoalioScene.GameScene.Update` | PEMSuperKoalio/GameScene.swift:90-108 | Before loading, or once the game is over, nothing changes. Otherwise previousUpdateTime becomes currentTime. The player gets the velocity and tentative position of one clamped step, corrected by the collision pass. position is committed unless the player fell. gameOver is set exactly when the player fell or passed the goal. |
| `KoalioScene.GameScene.CheckForAndResolveCollisionsForPlayer` | PEMSuperKoalio/GameScene.swift:112-169 | The player's tentative position, velocity and onGround become those of Pass. position becomes the corrected desired position unless the player fell. On a fall, gameOver is set and position is kept. |
| `KoalioScene.GameScene.CheckForWin` | PEMSuperKoalio/GameScene.swift:173-179 | gameOver is set when the map is loaded and position.x > 0.95 × map width. Otherwise it is kept. |
| `KoalioScene.GameScene.GameOver` | PEMSuperKoalio/GameScene.swift:181-184 | Ends the game whether it was won or lost. |
| `KoalioScene.GameScene.TouchDownAtPoint` | PEMSuperKoalio/GameScene.swift:188-196 | previousTouchLocation becomes the touch. The player's flags follow TouchDown and nothing else of the player changes. |
| `KoalioScene.GameScene.TouchMovedToPoint` | PEMSuperKoalio/GameScene.swift:198-210 | The flags follow TouchMoved from the previous touch. previousTouchLocation is always updated. |
| `KoalioScene.GameScene.TouchUpAtPoint` | PEMSuperKoalio/GameScene.swift:212-218 | The flags follow TouchUp. |
| `KoalioScene.GameScene.KeyDownWith` | PEMSuperKoalio/GameScene.swift:273-282 | The flags follow KeyDown. |
| `KoalioScene.GameScene.KeyUpWith` | PEMSuperKoalio/GameScene.swift:284-293 | The flags follow KeyUp. |
| `ObjectsPlayer.NextMotion` | PEMSuperKoalio/Objects/Player.swift:31-62 | A live player's velocity.x is exactly 0, -movementForce or +movementForce for idle, left or right, and its xScale becomes -1 for left and +1 for right. A dead player's velocity.x is scaled by 0.9, and its direction and xScale are ignored. A jump needs shouldJump, onGround and life: it adds jumpForce and clears onGround. A dead, grounded, jumping player gets velocity.y = 0. Otherwise onGround is kept and velocity.y only gains gravity. |
| `ObjectsPlayer.AliveSpeedIsDirected` | PEMSuperKoalio/Objects/Player.swift:48-62 | A live player's horizontal speed is always one of 0, +movementForce and -movementForce, whatever it was before. |
| `ObjectsPlayer.DeadIgnoresDirection` | PEMSuperKoalio/Objects/Player.swift:35-48 | For a dead player the direction input makes no difference to the step. |
| `ObjectsPlayer.AirborneStaysAirborne` | PEMSuperKoalio/Objects/Player.swift:39-46 | Player.update never sets onGround. |
| `ObjectsPlayer.CollisionBoundingBox` | PEMSuperKoalio/Objects/Player.swift:68-74 | The box is size.width - 2 wide and exactly one tile high, placed from the frame as the source does, and moved by desired - position. |
| `ObjectsPlayer.Player.constructor` | PEMSuperKoalio/Objects/Player.swift:24-29 | A new player has size playerSize and is alive, idle, not grounded and at rest. |
| `ObjectsPlayer.Player.Update` | PEMSuperKoalio/Objects/Player.swift:31-66 | velocity, onGround and xScale become NextMotion of the old state. desiredPosition = position + velocity·delta. position, isDead, shouldJump and direction are unchanged. |
| `ScenesGameScene.DirectionAfterKeyDown` | PEMSuperKoalio/Scenes/GameScene.swift:353-364 | Key 124 turns right, key 123 turns left, and any other key keeps the direction. |
| `ScenesGameScene.DirectionAfterKeyUp` | PEMSuperKoalio/Scenes/GameScene.swift:366-381 | Releasing 124 idles a right-moving player and releasing 123 idles a left-moving one. Every other case keeps the direction. The result is always the old direction or idle. |
| `ScenesGameScene.ArrowTapEndsIdle` | PEMSuperKoalio/Scenes/GameScene.swift:353-381 | Pressing and then releasing the same arrow key leaves the player idle. |
| `ScenesGameScene.OtherArrowReleaseKeepsDirection` | PEMSuperKoalio/Scenes/GameScene.swift:353-381 | Releasing the other arrow keeps the direction just pressed. |
| `ScenesGameScene.GameScene.constructor` | PEMSuperKoalio/Scenes/GameScene.swift:40-45 | The scene starts with no player and previousUpdateTime 0. |
| `ScenesGameScene.GameScene.Update` | PEMSuperKoalio/Scenes/GameScene.swift:135-148 | previousUpdateTime becomes currentTime. A present player takes one NextMotion step of min(delta, 0.02), and both positions become old position + velocity·delta. Its inputs are unchanged. |
| `ScenesGameScene.GameScene.CheckForCollisionsAndMovePlayer` | PEMSuperKoalio/Scenes/GameScene.swift:152-207 | position becomes desiredPosition and nothing else of the player changes. |
| `ScenesGameScene.GameScene.PlayerDiedSequence` | PEMSuperKoalio/Scenes/GameScene.swift:261-266 | Afterwards the player is dead, and nothing else changes. A player already dead is left as it is. |
| `ScenesGameScene.GameScene.KeyDown` | PEMSuperKoalio/Scenes/GameScene.swift:353-364 | The direction follows DirectionAfterKeyDown and nothing else of the player changes. The arrow keys require a player. |
| `ScenesGameScene.GameScene.KeyUp` | PEMSuperKoalio/Scenes/GameScene.swift:366-381 | The direction follows DirectionAfterKeyUp and nothing else of the player changes. The arrow keys require a player. |

## Left out

- Tile map internals: `tileCoords`, `tileAt` on the walls layer, the map sizes and `position(tileCoords:centered:)` come from PEMTileMap, which is not part of this model. They are the fields of `KoalioScene.TileMap`, and map loading is the constructor's `loaded` argument.
- The walls layer is taken to be present whenever the map is loaded. The source force-unwraps `walls!`, and a map without a walls layer would trap.
- The hazards layer (`PEMSuperKoalio/GameScene.swift:76`) is loaded but never queried, so it has no model.
- `CGRect.intersects`/`intersection` are taken to be the positive-area overlap in `Geometry`. Touching edges do not intersect. `insetBy` turning a frame narrower than 4 points into the null rectangle is not modelled.
- `SKSpriteNode.frame` depends on anchor point and scale. It is passed in as `frame`, not computed from `position`.
- CGFloat is modelled as `real`. There is no floating-point rounding, and `Int(_:)` is exact truncation toward zero.
- The CGPoint `add`/`subtract`/`multiplyScalar` and CGFloat `clamp` extensions are not part of this model. They are taken to be component-wise arithmetic and max(lo, min(hi, v)).
- The globals `gravity`, `gameTileSize` and `playerSize` read by revision B are defined outside the modelled files. They are the `ObjectsPlayer.Globals` parameter.
- Sound (`SKAction.playSoundFileNamed`), camera framing (`setViewpointCenter`), background colour and the `super.update` call have no effect on the modelled state and are left out.
- The delayed `gameOverSequence` and the `GameSceneDelegate` callbacks of revision B are left out. So are `doorWasOpened` and `levelCompletedSequence`, which no live code calls.
- UITouch/NSEvent extraction is left out: the `touches…` loops, the `mouse…` handlers and their window-coordinate flip. The model starts at the point or key code they pass on.
- Revision B's touch handlers have empty live bodies. Its collision pass, contact delegate, spawn code and its own `TileQueryPosition` enum are only used by disabled code, so none of it is modelled.
- `PEMSuperKoalio/GameController.swift` and the tvOS and macOS view controllers are scene presentation and input forwarding, and are not part of this model.
- The scene's `size` is fixed at creation. Resizing (`didChangeSize` is empty) is not modelled.
