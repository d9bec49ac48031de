# Breakout core in Dafny

A model of the game logic of a small libGDX Breakout game. It covers three parts.

- **The ball's physics step** (`Ball.updatePosition`). The ball moves by its fixed per-frame velocity. It then bounces off at most one paddle, off the left, right and top walls, and off every brick it overlaps.
- **The paddle's zone classification** (`Paddle.computeCollisionWithBall`). This decides which part of the paddle's top the ball struck: left, centre or right. The paddle's placement and touch tracking are modelled too.
- **The coordinator** (`Breakout`). It is a closed four-state machine (Intro, Playing, GameOver, Won). It covers the touch input, the per-frame update order, deferred brick removal through the listener slot `brickThatWasHit`, reset, and the 4×5 brick grid.

Everything is a pure function over immutable records:

- `Geometry.Rect` and `Geometry.Arena`.
- `Balls.Ball`: box, velocity and the paddle re-entry guard.
- `Paddles.Paddle` and `Bricks.Brick`.
- `Breakout.Game`: state, ball, paddle, bricks and the listener slot.

Coordinates and velocities are `real`. Java's `(int)` cast is `Geometry.Trunc`, which truncates toward zero. Java's `int / 2` is `Geometry.JavaHalf`.

The libGDX `Rectangle` class is not part of this model, so two of its methods are assumptions here:

- `Rectangle.overlaps` is taken to be the usual strict test. Boxes that only touch along an edge do not overlap (`Geometry.Overlaps`).
- `Rectangle.equals` is taken to compare the four fields. Because of this, `bricks.remove(brick)` is modelled as removing the first brick with equal geometry (`Lists.RemoveFirst`).

Because entities are values, a check such as `collisionWithBall` or `computeCollisionWithBall` cannot change the boxes it reads, and repeating it gives the same answer. A zone is a three-constructor datatype, so classification always yields exactly one zone.

The brick listener is not a callback in this model. `Bricks.CollisionWithBall` returns the list of bricks it would have passed to the listener. `Balls.Step` returns every brick reported during the step, in order. The coordinator stores the last of them in its slot, just as `onBallCollidedWithBrick` overwrites `brickThatWasHit`.

`Breakout.java:120` passes one paddle to `updatePosition`, which takes a list. The step is modelled over `seq<Paddle>`, and the coordinator passes `[paddle]`.

The code has one ball and one paddle, no pickups, satellite paddles or hit counters, and its brick loop in `updatePosition` has no `break`: every overlapped brick is resolved and reported.

## Model

| member | source | states |
|---|---|---|
| Geometry.Trunc | core/src/com/braunschweiler/games/Paddle.java:34 | The `(int)` cast truncates toward zero. For non-negative x, i ≤ x < i+1. For negative x, i−1 < x ≤ i. |
| Geometry.JavaHalf | core/src/com/braunschweiler/games/Ball.java:44 | Java's `int / 2` truncates toward zero. The quotient is bounded from both sides for either sign. |
| Lists.RemoveFirst | core/src/com/braunschweiler/games/Breakout.java:143 | `List.remove` takes out the first occurrence of the element when present and keeps the rest in order: the result is the part before the first occurrence followed by the part after it, so length −1 and multiset minus that element. It is the identity when absent. |
| Lists.IndexOf | core/src/com/braunschweiler/games/Breakout.java:143 | The index found holds the element and no earlier position does: it is the first occurrence. |
| Lists.RemoveFirstOfDistinct | core/src/com/braunschweiler/games/Breakout.java:141-145 | On a duplicate-free list, removal keeps it duplicate-free and takes the element out for good. A second removal is a no-op. |
| Paddles.Initialize | core/src/com/braunschweiler/games/Paddle.java:25-30 | The paddle is 128×32 at y = 20, on a whole pixel. It is centred in the arena; for an odd width the half pixel is dropped toward zero, which fixes x = vw/2 − 64. |
| Paddles.DidTouch | core/src/com/braunschweiler/games/Paddle.java:51-53 | Only x changes. x + 64 equals the touch position. y, width and height are unchanged. |
| Paddles.Classify | core/src/com/braunschweiler/games/Paddle.java:32-49 | Left iff ball.x+width ≤ centre−16. For a ball of non-negative width: Right iff ball.x ≥ centre+16, and Center iff the ball lies strictly inside the band. |
| Paddles.ClassifyBoundariesInclusive | core/src/com/braunschweiler/games/Paddle.java:37-40 | A right edge exactly at centre−16 gives Left. A left edge exactly at centre+16 gives Right. |
| Paddles.ZonesExclusive | core/src/com/braunschweiler/games/Paddle.java:37-42 | For non-negative ball width the Left and Right conditions never both hold, so testing Left first hides nothing. |
| Paddles.ClassifyReadsHorizontalOnly | core/src/com/braunschweiler/games/Paddle.java:32-49 | Pairs that agree on ball x/width and paddle x/width get the same zone. |
| Paddles.ClassifyMonotone | core/src/com/braunschweiler/games/Paddle.java:37-46 | Moving the ball right never moves it to a zone further left. |
| Paddles.TouchCentresNeutralBand | core/src/com/braunschweiler/games/Paddle.java:34-36 | After a touch, the truncated centre of a standard paddle is the truncated touch x. |
| Bricks.CollisionWithBall | core/src/com/braunschweiler/games/Brick.java:21-28 | Returns true iff the ball overlaps the brick. On a hit, the listener is notified exactly once, with this brick. On a miss it is not notified. |
| Bricks.Overlapping | core/src/com/braunschweiler/games/Ball.java:92-97 | A brick is reported in a pass iff it is in the list and the ball overlaps it; no more are reported than there are bricks. The report is empty iff no brick is overlapped. |
| Bricks.OverlappingSubMultiset | core/src/com/braunschweiler/games/Ball.java:92-97 | Each brick is reported at most as often as it occurs in the list: one report per list position at most. |
| Bricks.OverlappingAppend | core/src/com/braunschweiler/games/Ball.java:92-97 | The reports of a list split in two are the reports of the front followed by those of the back: list order is kept. |
| Bricks.OverlappingLast | core/src/com/braunschweiler/games/Ball.java:92-97 | The last brick reported is the last brick in list order that the ball overlaps. |
| Balls.Initialize | core/src/com/braunschweiler/games/Ball.java:43-52 | The ball is 32×32 on whole pixels and horizontally centred, the half pixel of an odd width dropped toward zero, which fixes x = vw/2 − 16. Its top is 20 px below the brick area. vy = −5, vx is the drawn integer in [1,5], and the guard is set. |
| Balls.OutOfBounds | core/src/com/braunschweiler/games/Ball.java:150-152 | A standard 32-pixel ball is out of bounds exactly when its top edge is below the floor, i.e. it has left the screen. |
| Balls.LostBallTouchesNothingOnScreen | core/src/com/braunschweiler/games/Ball.java:150-152 | A lost standard ball overlaps nothing lying on or above the floor, the paddle included. |
| Balls.IntrusionIsPenetrationDepth | core/src/com/braunschweiler/games/Ball.java:104-117 | For overlapping boxes, vx > 0 measures from the target's left face and vx ≤ 0 (0 included) from its right face; y works the same way. Each intrusion is a positive depth. |
| Balls.Resolve | core/src/com/braunschweiler/games/Ball.java:100-135 | Sides iff xI < yI, TopOrBottom iff yI < xI, Corner iff equal. Only vx, only vy, or both are negated to match. Position and guard are untouched. |
| Balls.ZoneVelocity | core/src/com/braunschweiler/games/Ball.java:63-83 | Left gives −5 and Right gives 5. Center gives 0.8·vx exactly when vx ≥ 1.25, and otherwise vx unchanged, so negative vx is never altered. From vx ≥ 1 the result stays in [1, vx]. |
| Balls.CenterHitsDecay | core/src/com/braunschweiler/games/Ball.java:76-82 | Successive centre hits never increase a speed that starts at 1 or more, and never take it below 1. |
| Balls.CenterHitsHold | core/src/com/braunschweiler/games/Ball.java:76-82 | Once the speed is below 1.25, any number of centre hits leave it unchanged. |
| Balls.PaddleHit | core/src/com/braunschweiler/games/Ball.java:60-84 | A resolved paddle hit clears the guard and keeps the position. A side hit negates vx. A corner negates both. A top/bottom hit negates vy and sets vx from the zone struck. |
| Balls.CollidePaddles | core/src/com/braunschweiler/games/Ball.java:58-87 | Position is kept. With the guard clear, or no paddle overlapped, nothing changes. The guard ends set iff it was set and no paddle was touched. vy keeps its magnitude. |
| Balls.CollidePaddlesResolvesFirstOnly | core/src/com/braunschweiler/games/Ball.java:58-62 | With the guard set, the result is exactly the hit on the first overlapped paddle. Later paddles have no effect. |
| Balls.BounceOffWalls | core/src/com/braunschweiler/games/Ball.java:137-147 | Touching a side wall negates vx and touching the ceiling negates vy; otherwise each is kept, so the floor never bounces. Position is kept. The guard ends set iff it was set or a wall was touched. |
| Balls.CollideBricks | core/src/com/braunschweiler/games/Ball.java:92-97 | Every overlapped brick is reported, with no early exit, and the position is kept. The guard ends set iff it was set or a brick was hit. Speeds are kept, and with no brick hit the ball is unchanged. |
| Balls.CollideBricksResolvesEachHit | core/src/com/braunschweiler/games/Ball.java:92-97 | The ball ends as if bounced (`Resolve`, guard set) off each overlapped brick in list order and off no other brick. |
| Balls.Step | core/src/com/braunschweiler/games/Ball.java:54-98 | The position moves by exactly the pre-step velocity. The reported bricks are exactly those the moved ball overlaps. The speed of vy never changes. The speed of vx changes only through a paddle hit, to 5 or to 0.8 times the old speed. The guard formula covers paddles, walls and bricks. A step that resolves no paddle, touches no wall and hits no brick keeps vx and vy. |
| Breakout.GridIndex | core/src/com/braunschweiler/games/Breakout.java:96-103 | Row i, column j of the grid is list position 5i + j. |
| Breakout.InitializeBricks | core/src/com/braunschweiler/games/Breakout.java:92-106 | The nested row/column loops build exactly the grid. |
| Breakout.GridLayout | core/src/com/braunschweiler/games/Breakout.java:92-106 | There are 20 bricks of 160×35. Brick k is at x = 160·(k mod 5), y = 445 − 35·(k div 5), top row first, all inside the top 140 px of the 800×480 arena. |
| Breakout.GridCellsApart | core/src/com/braunschweiler/games/Breakout.java:99-102 | Two different grid cells never overlap. |
| Breakout.GridDisjoint | core/src/com/braunschweiler/games/Breakout.java:92-106 | The bricks are pairwise non-overlapping under the strict test, and hence pairwise different. |
| Breakout.BelowBrickAreaHitsNothing | core/src/com/braunschweiler/games/Breakout.java:31 | A ball wholly below the brick area overlaps no grid brick. |
| Breakout.NewGame | core/src/com/braunschweiler/games/Breakout.java:62-90 | A new game starts on the intro screen with an empty slot, the brick grid, and a falling ball (vy = −5, vx the drawn value) whose guard is set. |
| Breakout.InitialLayout | core/src/com/braunschweiler/games/Breakout.java:86-90 | A new game has the ball at (384, 288), 32×32, with vx = the drawn value, vy = −5 and the guard set. The paddle is at (336, 20), 128×32. The bricks are the grid. |
| Breakout.InitialBallClear | core/src/com/braunschweiler/games/Breakout.java:86-90 | At the start the ball touches no brick, paddle or wall, and is not out of bounds. |
| Breakout.ResetGame | core/src/com/braunschweiler/games/Breakout.java:175-180 | Whatever the game was, reset gives a fresh game: Intro, empty slot, initial layout. |
| Breakout.TouchDown | core/src/com/braunschweiler/games/Breakout.java:331-346 | Intro becomes Playing with nothing else changed. GameOver and Won are reset to a fresh Intro. Playing is unchanged. |
| Breakout.DestroyHitBrick | core/src/com/braunschweiler/games/Breakout.java:141-145 | An empty slot removes nothing. A slot brick still in the list has its first occurrence removed, the other bricks keeping their order (length −1, multiset minus the brick). A slot brick already gone is a no-op. |
| Breakout.PlayerWon | core/src/com/braunschweiler/games/Breakout.java:151-153 | The player has won iff no brick is left. |
| Breakout.IsGameOver | core/src/com/braunschweiler/games/Breakout.java:182-184 | For a standard ball the game is over exactly when the ball is wholly below the floor; a lost ball can no longer touch a paddle lying on or above the floor. |
| Breakout.Slot | core/src/com/braunschweiler/games/Breakout.java:369-371 | With no report the slot keeps its old brick; with reports it holds one of the reported bricks. |
| Breakout.SlotIsLastNotification | core/src/com/braunschweiler/games/Breakout.java:369-371 | Keeping the last reported brick equals letting each `onBallCollidedWithBrick` call overwrite the slot in turn. |
| Breakout.FollowTouch | core/src/com/braunschweiler/games/Breakout.java:201-207 | No touch leaves the paddle alone. A touch moves it sideways so that x + 64 is the touch position; y and size are kept. |
| Breakout.Render | core/src/com/braunschweiler/games/Breakout.java:115-138 | Non-Playing states change nothing. In Playing the order is: ball step, then paddle input, then the slot takes the last reported brick (or keeps its old one), then that brick is removed. GameOver is tested before Won. |
| Breakout.FrameRemovesAtMostOne | core/src/com/braunschweiler/games/Breakout.java:141-145 | A frame never adds bricks and removes at most one. When bricks were reported, exactly the last one reported is removed. |
| Breakout.NewGameValid | core/src/com/braunschweiler/games/Breakout.java:86-90 | A new game has distinct bricks and an empty slot. |
| Breakout.RenderKeepsValid | core/src/com/braunschweiler/games/Breakout.java:119-127 | Frames keep the bricks distinct and the slot's brick out of the list. |
| Breakout.TouchDownKeepsValid | core/src/com/braunschweiler/games/Breakout.java:331-346 | Touches keep that invariant. |
| Breakout.StaleHitRemovesNothing | core/src/com/braunschweiler/games/Breakout.java:141-145 | The slot is never cleared, but re-removing its brick in a frame with no new hit leaves the bricks unchanged. |
| Breakout.QuietFrame | core/src/com/braunschweiler/games/Breakout.java:119-127 | A Playing frame with no hit, a ball still in play and bricks left stays Playing with all bricks. |
| Breakout.OpeningStep | core/src/com/braunschweiler/games/Ball.java:54-98 | The first step from the spawn point hits nothing and stays in play. |
| Breakout.OpeningFrame | core/src/com/braunschweiler/games/Breakout.java:119-128 | The first Playing frame from the initial layout keeps all bricks and stays Playing. The ball moves by its velocity. |
| Breakout.FirstFrame | core/src/com/braunschweiler/games/Breakout.java:331-335 | Touching the intro screen and running one frame gives Playing with the full grid and the ball at (384+vx, 283). |

## Left out

- Rendering is left out: the `draw` methods, `drawText`, `drawScene`, and the intro, game-over and victory screens. They only produce output, so `Render` keeps the game unchanged outside Playing.
- Textures, fonts and sprite batches are left out. They are asset I/O.
- Input polling and camera unprojection are left out. The projected touch x reaches `Render` as an `Option<real>`, with `None` when the screen is not touched. The unused InputProcessor methods return false and do nothing.
- The coordinator's own `ballAllowedToCollideWithPaddle` field (Breakout.java:58, 80, 177) is left out. It is written but never read; the live guard is the ball's.
- The commented-out `updateBall` and `updateBricks` and the old collision helper in Breakout.java are left out. They are dead code replaced by Ball.java.
- `Item` is left out. No shown code attaches or consumes an item.
- Float rounding is left out: 0.8 and all coordinates are exact reals.
- `Geometry.Trunc`: does not model the cast's saturation at the int range or NaN becoming 0, because only finite positions occur.
- `MathUtils.random(1, 5)` is left out. Its result is the caller-supplied integer `vx0`, which must be in [1, 5].
- The unrecognised-state exception in `render` is left out. `GameState` is a closed datatype, so it cannot occur.
