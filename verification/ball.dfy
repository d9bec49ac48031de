/** The ball: its spawn position, and one physics step — move by the fixed
    velocity, bounce off at most one paddle, off the walls and off every
    overlapped brick. */
module Balls {
  import opened Geometry
  import opened Paddles
  import opened Bricks

  const BallSize: int := 32
  /** Horizontal speed given by a hit on an outer paddle zone. */
  const ZoneSpeed: real := 5.0
  /** The centre-zone decay is skipped when it would go below this. */
  const MinimumXSpeed: real := 1.0
  const ReductionFactor: real := 0.8
  const InitialVelocityY: int := -5
  const MaxInitialVelocityX: int := 5

  /** A ball: its box, its per-frame velocity, and the re-entry guard that
      allows it to hit a paddle (cleared by a paddle hit, set again by a wall
      or a brick). */
  datatype Ball = Ball(rect: Rect, vx: real, vy: real, mayHitPaddle: bool)

  /** Which faces of the target the ball struck. */
  datatype CollisionKind = Sides | TopOrBottom | Corner

  datatype Resolution = Resolution(kind: CollisionKind, ball: Ball)

  /** The ball after a step and the bricks it reported to the listener, in order. */
  datatype StepResult = StepResult(ball: Ball, hits: seq<Brick>)

  /** `initialize`: a 32-pixel ball centred horizontally on whole pixels
      (for an odd arena width the half pixel is dropped toward zero), 20
      pixels below the brick area, falling at 5 pixels per frame with the
      random integer horizontal speed `vx0`. */
  function Initialize(arena: Arena, brickAreaHeight: int, vx0: int): (b: Ball)
    requires 1 <= vx0 <= MaxInitialVelocityX
    ensures b.rect.width == 32.0 && b.rect.height == 32.0
    ensures b.rect.x == b.rect.x.Floor as real && b.rect.y == b.rect.y.Floor as real
    ensures 0 <= arena.width ==> 0.0 <= arena.width as real - (2.0 * b.rect.x + b.rect.width) <= 1.0
    ensures arena.width < 0 ==> -1.0 <= arena.width as real - (2.0 * b.rect.x + b.rect.width) <= 0.0
    ensures b.rect.y + b.rect.height + 20.0 == (arena.height - brickAreaHeight) as real
    ensures b.vy == -5.0 && b.vx == vx0 as real && 1.0 <= b.vx <= 5.0
    ensures b.mayHitPaddle
  {
    Ball(Rect((JavaHalf(arena.width) - BallSize / 2) as real,
              (arena.height - brickAreaHeight - BallSize - 20) as real,
              BallSize as real, BallSize as real),
         vx0 as real, InitialVelocityY as real, true)
  }

  /** `outOfBounds`: the ball has sunk a full ball size below the floor, so
      a ball of the standard size has left the screen completely. */
  predicate OutOfBounds(b: Ball): (out: bool)
    ensures b.rect.height == BallSize as real ==> (out <==> b.rect.y + b.rect.height < 0.0)
  {
    b.rect.y < -(BallSize as real)
  }

  /** A lost ball of the standard size can touch nothing that lies on or
      above the floor, the paddle included. */
  lemma LostBallTouchesNothingOnScreen(b: Ball, target: Rect)
    requires OutOfBounds(b) && b.rect.height == BallSize as real && 0.0 <= target.y
    ensures !Overlaps(b.rect, target)
  {
  }

  /** Penetration on the x axis, measured from the face the ball approaches:
      the target's left face when moving right, its right face otherwise
      (also when not moving). */
  function XIntrusion(b: Ball, target: Rect): real
  {
    if b.vx > 0.0 then Abs(target.x - (b.rect.x + b.rect.width))
    else Abs((target.x + target.width) - b.rect.x)
  }

  /** Penetration on the y axis: from the target's bottom face when moving
      up, from its top face otherwise. */
  function YIntrusion(b: Ball, target: Rect): real
  {
    if b.vy > 0.0 then Abs((b.rect.y + b.rect.height) - target.y)
    else Abs((target.y + target.height) - b.rect.y)
  }

  /** For overlapping boxes each intrusion is the positive depth by which the
      ball has passed the face it approaches. */
  lemma IntrusionIsPenetrationDepth(b: Ball, target: Rect)
    requires Overlaps(b.rect, target)
    ensures b.vx > 0.0 ==> XIntrusion(b, target) == b.rect.x + b.rect.width - target.x > 0.0
    ensures b.vx <= 0.0 ==> XIntrusion(b, target) == target.x + target.width - b.rect.x > 0.0
    ensures b.vy > 0.0 ==> YIntrusion(b, target) == b.rect.y + b.rect.height - target.y > 0.0
    ensures b.vy <= 0.0 ==> YIntrusion(b, target) == target.y + target.height - b.rect.y > 0.0
  {
  }

  /** `updateBallVelocityBasedOnCollision`: the shallower intrusion names the
      face that was struck and the velocity component across it is reversed;
      equal intrusions are a corner and reverse both. */
  function Resolve(b: Ball, target: Rect): (r: Resolution)
    ensures r.ball.rect == b.rect && r.ball.mayHitPaddle == b.mayHitPaddle
    ensures r.kind == Sides <==> XIntrusion(b, target) < YIntrusion(b, target)
    ensures r.kind == TopOrBottom <==> YIntrusion(b, target) < XIntrusion(b, target)
    ensures r.kind == Corner <==> XIntrusion(b, target) == YIntrusion(b, target)
    ensures r.ball.vx == (if r.kind == TopOrBottom then b.vx else -b.vx)
    ensures r.ball.vy == (if r.kind == Sides then b.vy else -b.vy)
  {
    var xIntrusion := XIntrusion(b, target);
    var yIntrusion := YIntrusion(b, target);
    if xIntrusion < yIntrusion then Resolution(Sides, b.(vx := -b.vx))
    else if yIntrusion < xIntrusion then Resolution(TopOrBottom, b.(vy := -b.vy))
    else Resolution(Corner, b.(vx := -b.vx, vy := -b.vy))
  }

  /** The horizontal velocity after a top-or-bottom paddle hit in `zone`:
      fixed leftward or rightward speed on the outer zones; on the centre a
      decay by 0.8 that is applied only while the result stays at least 1,
      so it never touches a velocity below 1.25 (negative ones included). */
  function ZoneVelocity(vx: real, zone: Zone): (r: real)
    ensures zone == LeftZone ==> r == -ZoneSpeed
    ensures zone == RightZone ==> r == ZoneSpeed
    ensures zone == CenterZone && vx >= 1.25 ==> r == 0.8 * vx
    ensures zone == CenterZone && vx < 1.25 ==> r == vx
    ensures zone == CenterZone && vx >= 1.0 ==> 1.0 <= r <= vx
  {
    match zone
    case LeftZone => -ZoneSpeed
    case RightZone => ZoneSpeed
    case CenterZone =>
      var prospective := vx * ReductionFactor;
      if prospective >= MinimumXSpeed then prospective else vx
  }

  /** Horizontal velocity after `n` successive centre-zone hits. */
  function CenterHits(vx: real, n: nat): real
    decreases n
  {
    if n == 0 then vx else CenterHits(ZoneVelocity(vx, CenterZone), n - 1)
  }

  /** Repeated centre hits slow a ball of speed at least 1 monotonically and
      never below 1. */
  lemma {:induction false} CenterHitsDecay(vx: real, n: nat)
    requires vx >= MinimumXSpeed
    ensures MinimumXSpeed <= CenterHits(vx, n + 1) <= CenterHits(vx, n) <= vx
    decreases n
  {
    if n > 0 {
      CenterHitsDecay(ZoneVelocity(vx, CenterZone), n - 1);
    }
  }

  /** Once the speed is below 1.25 further centre hits leave it alone for ever. */
  lemma {:induction false} CenterHitsHold(vx: real, n: nat)
    requires vx < 1.25
    ensures CenterHits(vx, n) == vx
    decreases n
  {
    if n > 0 {
      CenterHitsHold(ZoneVelocity(vx, CenterZone), n - 1);
    }
  }

  /** One resolved paddle collision: bounce, clear the guard, and on a
      top-or-bottom hit let the struck zone set the horizontal velocity. */
  function PaddleHit(b: Ball, p: Paddle): (r: Ball)
    ensures r.rect == b.rect && !r.mayHitPaddle
    ensures XIntrusion(b, p.rect) < YIntrusion(b, p.rect) ==> r.vx == -b.vx && r.vy == b.vy
    ensures XIntrusion(b, p.rect) == YIntrusion(b, p.rect) ==> r.vx == -b.vx && r.vy == -b.vy
    ensures YIntrusion(b, p.rect) < XIntrusion(b, p.rect) ==>
              r.vx == ZoneVelocity(b.vx, Classify(p, b.rect)) && r.vy == -b.vy
  {
    var resolution := Resolve(b, p.rect);
    var bounced := resolution.ball.(mayHitPaddle := false);
    if resolution.kind == TopOrBottom then
      bounced.(vx := ZoneVelocity(bounced.vx, Classify(p, bounced.rect)))
    else bounced
  }

  /** Speeds a paddle hit can leave: unchanged, the zone speed, or decayed. */
  predicate PaddleSpeed(vx: real, original: real)
  {
    Abs(vx) == Abs(original) || Abs(vx) == ZoneSpeed || Abs(vx) == ReductionFactor * Abs(original)
  }

  /** The ball box overlaps some paddle. */
  predicate TouchesAnyPaddle(ball: Rect, paddles: seq<Paddle>)
  {
    exists i :: 0 <= i < |paddles| && Overlaps(ball, paddles[i].rect)
  }

  /** The paddle loop of `updatePosition`: a paddle the ball overlaps is
      resolved only while the guard is set, and resolving clears it, so at
      most one paddle collision happens per step. */
  function CollidePaddles(b: Ball, paddles: seq<Paddle>): (r: Ball)
    ensures r.rect == b.rect
    ensures !b.mayHitPaddle || !TouchesAnyPaddle(b.rect, paddles) ==> r == b
    ensures r.mayHitPaddle <==> b.mayHitPaddle && !TouchesAnyPaddle(b.rect, paddles)
    ensures Abs(r.vy) == Abs(b.vy)
    ensures PaddleSpeed(r.vx, b.vx)
    decreases |paddles|
  {
    if |paddles| == 0 then b
    else
      var p := paddles[0];
      assert TouchesAnyPaddle(b.rect, paddles) <==>
             Overlaps(b.rect, p.rect) || TouchesAnyPaddle(b.rect, paddles[1..]) by {
        if TouchesAnyPaddle(b.rect, paddles[1..]) {
          var i :| 0 <= i < |paddles[1..]| && Overlaps(b.rect, paddles[1..][i].rect);
          assert paddles[i + 1] == paddles[1..][i];
        }
        if TouchesAnyPaddle(b.rect, paddles) && !Overlaps(b.rect, p.rect) {
          var i :| 0 <= i < |paddles| && Overlaps(b.rect, paddles[i].rect);
          assert paddles[1..][i - 1] == paddles[i];
        }
      }
      var next := if b.mayHitPaddle && Overlaps(b.rect, p.rect) then PaddleHit(b, p) else b;
      CollidePaddles(next, paddles[1..])
  }

  /** With the guard set, the step resolves exactly the first paddle the ball
      overlaps and no other. */
  lemma {:induction false} CollidePaddlesResolvesFirstOnly(b: Ball, paddles: seq<Paddle>, i: nat)
    requires b.mayHitPaddle && i < |paddles| && Overlaps(b.rect, paddles[i].rect)
    requires forall j :: 0 <= j < i ==> !Overlaps(b.rect, paddles[j].rect)
    ensures CollidePaddles(b, paddles) == PaddleHit(b, paddles[i])
  {
    if i > 0 {
      assert !Overlaps(b.rect, paddles[0].rect);
      CollidePaddlesResolvesFirstOnly(b, paddles[1..], i - 1);
    }
  }

  predicate TouchesSideWall(ball: Rect, arena: Arena)
  {
    ball.x <= 0.0 || ball.x + ball.width >= arena.width as real
  }

  predicate TouchesCeiling(ball: Rect, arena: Arena)
  {
    ball.y + ball.height >= arena.height as real
  }

  /** `ballCollidedWithEdgeOfScreen` with its caller: the side walls reverse
      the horizontal velocity, the ceiling the vertical one, and touching any
      of them sets the guard again. The floor is not a wall. */
  function BounceOffWalls(b: Ball, arena: Arena): (r: Ball)
    ensures r.rect == b.rect
    ensures Abs(r.vx) == Abs(b.vx) && Abs(r.vy) == Abs(b.vy)
    ensures r.mayHitPaddle <==> b.mayHitPaddle || TouchesSideWall(b.rect, arena) || TouchesCeiling(b.rect, arena)
    ensures TouchesSideWall(b.rect, arena) ==> r.vx == -b.vx
    ensures TouchesCeiling(b.rect, arena) ==> r.vy == -b.vy
    ensures r.vx != b.vx ==> TouchesSideWall(b.rect, arena)
    ensures r.vy != b.vy ==> TouchesCeiling(b.rect, arena)
  {
    var side := TouchesSideWall(b.rect, arena);
    var ceiling := TouchesCeiling(b.rect, arena);
    b.(vx := if side then -b.vx else b.vx,
       vy := if ceiling then -b.vy else b.vy,
       mayHitPaddle := if side || ceiling then true else b.mayHitPaddle)
  }

  /** The brick loop of `updatePosition`: every brick the ball overlaps is
      reported, bounced off and sets the guard; there is no early exit. */
  function CollideBricks(b: Ball, bricks: seq<Brick>): (r: StepResult)
    ensures r.ball.rect == b.rect
    ensures r.hits == Overlapping(b.rect, bricks)
    ensures r.ball.mayHitPaddle <==> b.mayHitPaddle || |r.hits| > 0
    ensures Abs(r.ball.vx) == Abs(b.vx) && Abs(r.ball.vy) == Abs(b.vy)
    ensures r.hits == [] ==> r.ball == b
    decreases |bricks|
  {
    if |bricks| == 0 then StepResult(b, [])
    else
      var check := CollisionWithBall(bricks[0], b.rect);
      var next := if check.collided then Resolve(b, bricks[0].rect).ball.(mayHitPaddle := true) else b;
      var rest := CollideBricks(next, bricks[1..]);
      StepResult(rest.ball, check.notified + rest.hits)
  }

  /** The ball after bouncing off each brick of `hits` in turn, every bounce
      setting the guard again. */
  function ResolveAll(b: Ball, hits: seq<Brick>): Ball
    decreases |hits|
  {
    if |hits| == 0 then b
    else ResolveAll(Resolve(b, hits[0].rect).ball.(mayHitPaddle := true), hits[1..])
  }

  /** The brick loop bounces the ball off exactly the bricks it overlaps, in
      list order, and a brick it does not overlap leaves it alone. */
  lemma {:induction false} CollideBricksResolvesEachHit(b: Ball, bricks: seq<Brick>)
    ensures CollideBricks(b, bricks).ball == ResolveAll(b, Overlapping(b.rect, bricks))
    decreases |bricks|
  {
    if |bricks| > 0 {
      var hit := Overlaps(b.rect, bricks[0].rect);
      var next := if hit then Resolve(b, bricks[0].rect).ball.(mayHitPaddle := true) else b;
      assert next.rect == b.rect;
      CollideBricksResolvesEachHit(next, bricks[1..]);
      var hits := Overlapping(b.rect, bricks);
      if hit {
        assert hits == [bricks[0]] + Overlapping(b.rect, bricks[1..]);
        assert hits[0] == bricks[0] && hits[1..] == Overlapping(b.rect, bricks[1..]);
      } else {
        assert hits == Overlapping(b.rect, bricks[1..]);
      }
    }
  }

  /** `updatePosition`. The position advances by exactly the pre-step
      velocity and collisions touch only the velocity and the guard; the
      reported bricks are exactly those the moved ball overlaps; vertical
      speed is never changed, horizontal speed only by a paddle hit; the guard
      ends set iff a wall or brick was hit or it was set and no paddle
      was touched; a step that resolves no paddle, wall or brick keeps the
      velocity. */
  function Step(b: Ball, bricks: seq<Brick>, paddles: seq<Paddle>, arena: Arena): (r: StepResult)
    ensures r.ball.rect == b.rect.(x := b.rect.x + b.vx, y := b.rect.y + b.vy)
    ensures r.hits == Overlapping(r.ball.rect, bricks)
    ensures Abs(r.ball.vy) == Abs(b.vy)
    ensures PaddleSpeed(r.ball.vx, b.vx)
    ensures !b.mayHitPaddle || !TouchesAnyPaddle(r.ball.rect, paddles) ==> Abs(r.ball.vx) == Abs(b.vx)
    ensures r.ball.mayHitPaddle <==>
              (b.mayHitPaddle && !TouchesAnyPaddle(r.ball.rect, paddles))
              || TouchesSideWall(r.ball.rect, arena) || TouchesCeiling(r.ball.rect, arena)
              || |r.hits| > 0
    ensures ((!b.mayHitPaddle || !TouchesAnyPaddle(r.ball.rect, paddles))
             && !TouchesSideWall(r.ball.rect, arena) && !TouchesCeiling(r.ball.rect, arena)
             && r.hits == []) ==> r.ball.vx == b.vx && r.ball.vy == b.vy
  {
    var moved := b.(rect := b.rect.(x := b.rect.x + b.vx, y := b.rect.y + b.vy));
    var afterPaddles := CollidePaddles(moved, paddles);
    var afterWalls := BounceOffWalls(afterPaddles, arena);
    CollideBricks(afterWalls, bricks)
  }
}
