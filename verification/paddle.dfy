/** The player's paddle: its placement, how it follows a touch, and which
    horizontal zone of its top a ball struck. */
module Paddles {
  import opened Geometry

  const PaddleWidth: int := 128
  const PaddleHeight: int := 32
  /** Half-width of the neutral band around the paddle's centre. */
  const NeutralZone: int := PaddleWidth / 8
  const PaddleY: int := 20

  datatype Paddle = Paddle(rect: Rect)

  /** The part of the paddle's top a ball struck. */
  datatype Zone = LeftZone | CenterZone | RightZone

  /** Left-to-right order of the zones. */
  function Rank(z: Zone): int
  {
    match z
    case LeftZone => 0
    case CenterZone => 1
    case RightZone => 2
  }

  /** `initialize`: the paddle sits 20 pixels above the floor, centred in the
      arena on a whole pixel, the half pixel of an odd width being dropped
      toward zero. */
  function Initialize(arena: Arena): (p: Paddle)
    ensures p.rect.width == 128.0 && p.rect.height == 32.0 && p.rect.y == 20.0
    ensures p.rect.x == p.rect.x.Floor as real
    ensures 0 <= arena.width ==> 0.0 <= arena.width as real - (2.0 * p.rect.x + p.rect.width) <= 1.0
    ensures arena.width < 0 ==> -1.0 <= arena.width as real - (2.0 * p.rect.x + p.rect.width) <= 0.0
  {
    Paddle(Rect((JavaHalf(arena.width) - PaddleWidth / 2) as real,
                PaddleY as real, PaddleWidth as real, PaddleHeight as real))
  }

  /** `didTouch`: the paddle moves sideways so that a paddle of the standard
      width is centred under the projected touch position. */
  function DidTouch(p: Paddle, touchX: real): (r: Paddle)
    ensures r.rect.y == p.rect.y && r.rect.width == p.rect.width && r.rect.height == p.rect.height
    ensures r.rect.x + (PaddleWidth / 2) as real == touchX
  {
    Paddle(p.rect.(x := touchX - (PaddleWidth / 2) as real))
  }

  /** The whole-pixel centre the zone bounds are measured from. */
  function Center(p: Paddle): int
  {
    Trunc(p.rect.x + p.rect.width / 2.0)
  }

  /** `computeCollisionWithBall`: Left when the ball's right edge is at or left
      of the neutral band, Right when its left edge is at or right of it,
      Center otherwise. */
  function Classify(p: Paddle, ball: Rect): (z: Zone)
    ensures z == LeftZone <==> ball.x + ball.width <= (Center(p) - NeutralZone) as real
    ensures 0.0 <= ball.width ==>
              (z == RightZone <==> ball.x >= (Center(p) + NeutralZone) as real)
    ensures 0.0 <= ball.width ==>
              (z == CenterZone <==> (Center(p) - NeutralZone) as real < ball.x + ball.width
                                    && ball.x < (Center(p) + NeutralZone) as real)
  {
    var center := Center(p);
    var leftBound := center - NeutralZone;
    var rightBound := center + NeutralZone;
    if ball.x + ball.width <= leftBound as real then LeftZone
    else if ball.x >= rightBound as real then RightZone
    else CenterZone
  }

  /** Both bounds belong to the outer zones. */
  lemma ClassifyBoundariesInclusive(p: Paddle, ball: Rect)
    requires 0.0 <= ball.width
    ensures ball.x + ball.width == (Center(p) - NeutralZone) as real ==> Classify(p, ball) == LeftZone
    ensures ball.x == (Center(p) + NeutralZone) as real ==> Classify(p, ball) == RightZone
  {
  }

  /** For a ball of non-negative width the Left and Right conditions exclude
      each other, so testing Left first never hides a Right. */
  lemma ZonesExclusive(p: Paddle, ball: Rect)
    requires 0.0 <= ball.width
    ensures !(ball.x + ball.width <= (Center(p) - NeutralZone) as real
              && ball.x >= (Center(p) + NeutralZone) as real)
  {
    assert (Center(p) - NeutralZone) as real < (Center(p) + NeutralZone) as real;
  }

  /** Classification reads only the horizontal fields of ball and paddle. */
  lemma ClassifyReadsHorizontalOnly(p: Paddle, q: Paddle, a: Rect, b: Rect)
    requires p.rect.x == q.rect.x && p.rect.width == q.rect.width
    requires a.x == b.x && a.width == b.width
    ensures Classify(p, a) == Classify(q, b)
  {
  }

  /** Sliding the ball to the right never moves it to a zone further left. */
  lemma ClassifyMonotone(p: Paddle, a: Rect, b: Rect)
    requires 0.0 <= a.width && a.width == b.width && a.x <= b.x
    ensures Rank(Classify(p, a)) <= Rank(Classify(p, b))
  {
    ZonesExclusive(p, a);
    ZonesExclusive(p, b);
  }

  /** After a touch, the neutral band of a standard paddle is centred on the
      truncated touch position. */
  lemma TouchCentresNeutralBand(p: Paddle, touchX: real)
    requires p.rect.width == PaddleWidth as real
    ensures Center(DidTouch(p, touchX)) == Trunc(touchX)
  {
  }
}
