/** The game coordinator: the four-state machine driven by touches and
    frames, the brick grid, and the deferred removal of the brick the ball
    reported. */
module Breakout {
  import opened Geometry
  import opened Options
  import opened Lists
  import opened Paddles
  import opened Bricks
  import opened Balls

  const ViewportWidth: int := 800
  const ViewportHeight: int := 480
  const TotalBricks: int := 20
  const BrickRows: int := 4
  const BricksPerRow: int := TotalBricks / BrickRows
  /** Height of the band at the top of the arena that holds the bricks. */
  const BrickAreaHeight: int := ViewportHeight / 2 - 100
  const BrickWidth: int := ViewportWidth / BricksPerRow
  const BrickHeight: int := BrickAreaHeight / BrickRows

  const Viewport: Arena := Arena(ViewportWidth, ViewportHeight)

  datatype GameState = Intro | Playing | GameOver | Won

  /** Everything the coordinator owns. `brickThatWasHit` is the listener slot:
      the last brick reported, kept until the next report or a reset. */
  datatype Game = Game(state: GameState, ball: Ball, paddle: Paddle, bricks: seq<Brick>,
                       brickThatWasHit: Option<Brick>)

  /** The brick in row `i` (0 is the top row) and column `j`. */
  function GridBrick(i: int, j: int): Brick
  {
    Brick(Rect((j * BrickWidth) as real, (ViewportHeight - BrickHeight - i * BrickHeight) as real,
               BrickWidth as real, BrickHeight as real))
  }

  /** The initial brick list: the grid in row-major order, top row first. */
  function Grid(): seq<Brick>
  {
    seq(TotalBricks, k requires 0 <= k < TotalBricks => GridBrick(k / BricksPerRow, k % BricksPerRow))
  }

  /** Row `i`, column `j` of the grid is list position 5 * i + j. */
  lemma GridIndex(i: int, j: int)
    requires 0 <= i < BrickRows && 0 <= j < BricksPerRow
    ensures i * BricksPerRow + j < |Grid()| && Grid()[i * BricksPerRow + j] == GridBrick(i, j)
  {
    assert BricksPerRow == 5;
    var k := 5 * i + j;
    assert k / 5 == i && k % 5 == j by {
      assert k == 5 * i + j && 0 <= j < 5;
    }
  }

  /** `initializeBricks`: the nested row and column loops build the grid. */
  method InitializeBricks() returns (bricks: seq<Brick>)
    ensures bricks == Grid()
  {
    bricks := [];
    var brickWidth := ViewportWidth / BricksPerRow;
    var brickHeight := BrickAreaHeight / BrickRows;
    var i := 0;
    while i < BrickRows
      invariant 0 <= i <= BrickRows
      invariant bricks == Grid()[..i * BricksPerRow]
    {
      var j := 0;
      while j < BricksPerRow
        invariant 0 <= j <= BricksPerRow
        invariant bricks == Grid()[..i * BricksPerRow + j]
      {
        var brick := Brick(Rect((j * brickWidth) as real,
                                (ViewportHeight - brickHeight - i * brickHeight) as real,
                                brickWidth as real, brickHeight as real));
        GridIndex(i, j);
        assert Grid()[..i * BricksPerRow + j + 1] == Grid()[..i * BricksPerRow + j] + [brick];
        bricks := bricks + [brick];
        j := j + 1;
      }
      i := i + 1;
    }
  }

  /** The grid holds 20 bricks of 160 by 35 pixels; brick k sits in row k / 5
      and column k % 5, at x = 160 * column and y = 445 - 35 * row, inside
      the brick area at the top of the arena. */
  lemma GridLayout()
    ensures |Grid()| == 20
    ensures forall k :: 0 <= k < 20 ==>
              Grid()[k].rect == Rect((160 * (k % 5)) as real, (445 - 35 * (k / 5)) as real, 160.0, 35.0)
    ensures forall k :: 0 <= k < 20 ==>
              0.0 <= Grid()[k].rect.x && Grid()[k].rect.x + Grid()[k].rect.width <= 800.0
              && 340.0 <= Grid()[k].rect.y && Grid()[k].rect.y + Grid()[k].rect.height <= 480.0
  {
  }

  /** Two different grid cells do not overlap. */
  lemma GridCellsApart(i: int, j: int, i': int, j': int)
    requires i != i' || j != j'
    ensures !Overlaps(GridBrick(i, j).rect, GridBrick(i', j').rect)
  {
    if i != i' {
      assert i < i' ==> 35 * i + 35 <= 35 * i';
      assert i' < i ==> 35 * i' + 35 <= 35 * i;
    } else {
      assert j < j' ==> 160 * j + 160 <= 160 * j';
      assert j' < j ==> 160 * j' + 160 <= 160 * j;
    }
  }

  /** No two bricks of the grid overlap, so no two are equal either. */
  lemma GridDisjoint()
    ensures forall a, b :: 0 <= a < b < |Grid()| ==> !Overlaps(Grid()[a].rect, Grid()[b].rect)
    ensures NoDup(Grid())
  {
    forall a, b | 0 <= a < b < |Grid()|
      ensures !Overlaps(Grid()[a].rect, Grid()[b].rect)
    {
      assert a == 5 * (a / 5) + a % 5 && b == 5 * (b / 5) + b % 5;
      GridCellsApart(a / 5, a % 5, b / 5, b % 5);
    }
    forall a, b | 0 <= a < b < |Grid()| ensures Grid()[a] != Grid()[b] {
      assert Overlaps(Grid()[a].rect, Grid()[a].rect);
    }
  }

  /** A ball box wholly below the brick area hits no brick of the grid. */
  lemma BelowBrickAreaHitsNothing(ball: Rect)
    requires ball.y + ball.height <= 340.0
    ensures Overlapping(ball, Grid()) == []
  {
    forall b | b in Grid() ensures !Overlaps(ball, b.rect) {
      GridLayout();
    }
  }

  /** `create` and `initializeGameObjectPositions`: the intro screen over the
      initial layout, with the random initial horizontal speed `vx0`. */
  function NewGame(vx0: int): (g: Game)
    requires 1 <= vx0 <= MaxInitialVelocityX
    ensures g.state == Intro && g.brickThatWasHit == None && g.bricks == Grid()
    ensures g.ball.mayHitPaddle && g.ball.vx == vx0 as real && g.ball.vy == -5.0
  {
    Game(Intro, Balls.Initialize(Viewport, BrickAreaHeight, vx0), Paddles.Initialize(Viewport),
         Grid(), None)
  }

  /** The initial layout: ball at (384, 288) falling, paddle at (336, 20),
      and the grid of bricks. */
  lemma InitialLayout(vx0: int)
    requires 1 <= vx0 <= MaxInitialVelocityX
    ensures NewGame(vx0).ball == Ball(Rect(384.0, 288.0, 32.0, 32.0), vx0 as real, -5.0, true)
    ensures NewGame(vx0).paddle == Paddle(Rect(336.0, 20.0, 128.0, 32.0))
    ensures NewGame(vx0).bricks == Grid()
  {
  }

  /** At the start the ball touches no brick, paddle or wall and is in play. */
  lemma InitialBallClear(vx0: int)
    requires 1 <= vx0 <= MaxInitialVelocityX
    ensures Overlapping(NewGame(vx0).ball.rect, NewGame(vx0).bricks) == []
    ensures !Overlaps(NewGame(vx0).ball.rect, NewGame(vx0).paddle.rect)
    ensures !TouchesSideWall(NewGame(vx0).ball.rect, Viewport)
    ensures !TouchesCeiling(NewGame(vx0).ball.rect, Viewport)
    ensures !OutOfBounds(NewGame(vx0).ball)
  {
    InitialLayout(vx0);
    BelowBrickAreaHitsNothing(NewGame(vx0).ball.rect);
  }

  /** `resetGame`: back to the intro screen with the listener slot cleared
      and ball, paddle and bricks laid out again; whatever the game was, the
      result is a fresh game. */
  function ResetGame(g: Game, vx0: int): (r: Game)
    requires 1 <= vx0 <= MaxInitialVelocityX
    ensures r == NewGame(vx0)
  {
    g.(state := Intro, brickThatWasHit := None,
       ball := Balls.Initialize(Viewport, BrickAreaHeight, vx0),
       paddle := Paddles.Initialize(Viewport),
       bricks := Grid())
  }

  /** `touchDown`: the intro starts play, a finished game is reset to the
      intro, and a touch during play is ignored. `vx0` is the random speed a
      reset would draw. */
  function TouchDown(g: Game, vx0: int): (r: Game)
    requires 1 <= vx0 <= MaxInitialVelocityX
    ensures g.state == Intro ==> r == g.(state := Playing)
    ensures g.state == Playing ==> r == g
    ensures g.state == GameOver || g.state == Won ==> r == NewGame(vx0)
  {
    match g.state
    case Intro => g.(state := Playing)
    case GameOver => ResetGame(g, vx0)
    case Won => ResetGame(g, vx0)
    case Playing => g
  }

  /** `destroyHitBrick`: remove the brick in the listener slot, if any. */
  function DestroyHitBrick(bricks: seq<Brick>, hit: Option<Brick>): (r: seq<Brick>)
    ensures hit.None? ==> r == bricks
    ensures hit.Some? && hit.value in bricks ==>
              && |r| == |bricks| - 1 && multiset(r) == multiset(bricks) - multiset{hit.value}
              && r == bricks[..IndexOf(bricks, hit.value)] + bricks[IndexOf(bricks, hit.value) + 1..]
    ensures hit.Some? && hit.value !in bricks ==> r == bricks
  {
    match hit
    case None => bricks
    case Some(brick) => RemoveFirst(bricks, brick)
  }

  /** `playerWon`: no brick is left. */
  predicate PlayerWon(g: Game): (won: bool)
    ensures won <==> forall k :: k !in g.bricks
  {
    assert |g.bricks| > 0 ==> g.bricks[0] in g.bricks;
    |g.bricks| == 0
  }

  /** `gameOver`: the ball is lost below the floor; a lost ball of the
      standard size can no longer reach a paddle lying on or above the floor. */
  predicate IsGameOver(g: Game): (over: bool)
    ensures g.ball.rect.height == BallSize as real ==> (over <==> g.ball.rect.y + g.ball.rect.height < 0.0)
    ensures over && g.ball.rect.height == BallSize as real && 0.0 <= g.paddle.rect.y ==>
              !Overlaps(g.ball.rect, g.paddle.rect)
  {
    OutOfBounds(g.ball)
  }

  /** `onBallCollidedWithBrick` heard once per reported brick: each call
      overwrites the slot. */
  function Listen(slot: Option<Brick>, hits: seq<Brick>): Option<Brick>
    decreases |hits|
  {
    if |hits| == 0 then slot else Listen(Some(hits[0]), hits[1..])
  }

  /** The listener slot once the listener has heard of `hits`: the last
      brick reported, or what it held before when none was. */
  function Slot(hits: seq<Brick>, previous: Option<Brick>): (s: Option<Brick>)
    ensures hits == [] ==> s == previous
    ensures hits != [] ==> s.Some? && s.value in hits
  {
    if |hits| > 0 then Some(hits[|hits| - 1]) else previous
  }

  /** Keeping only the last report is the same as letting every
      `onBallCollidedWithBrick` call overwrite the slot in turn. */
  lemma {:induction false} SlotIsLastNotification(hits: seq<Brick>, previous: Option<Brick>)
    ensures Slot(hits, previous) == Listen(previous, hits)
    decreases |hits|
  {
    if |hits| > 0 {
      SlotIsLastNotification(hits[1..], Some(hits[0]));
    }
  }

  /** `updatePaddleBasedOnUserInput`, given the projected touch position
      when the screen is touched: a touch moves the paddle sideways under
      it, no touch leaves the paddle where it is. */
  function FollowTouch(p: Paddle, touch: Option<real>): (q: Paddle)
    ensures touch.None? ==> q == p
    ensures q.rect.y == p.rect.y && q.rect.width == p.rect.width && q.rect.height == p.rect.height
    ensures touch.Some? ==> q.rect.x + (PaddleWidth / 2) as real == touch.value
  {
    match touch
    case Some(x) => DidTouch(p, x)
    case None => p
  }

  /** The Playing branch of `render`: step the ball against the bricks and
      the one paddle, move the paddle to the touch, remove the brick in the
      listener slot, then test for a lost ball before an empty grid. The
      other states only draw, so they change nothing. */
  function Render(g: Game, touch: Option<real>): (r: Game)
    ensures g.state != Playing ==> r == g
    ensures g.state == Playing ==>
              var step := Step(g.ball, g.bricks, [g.paddle], Viewport);
              && r.ball == step.ball
              && r.paddle == FollowTouch(g.paddle, touch)
              && r.brickThatWasHit == Slot(step.hits, g.brickThatWasHit)
              && r.bricks == DestroyHitBrick(g.bricks, r.brickThatWasHit)
              && r.state == (if OutOfBounds(r.ball) then GameOver
                             else if |r.bricks| == 0 then Won else Playing)
  {
    match g.state
    case Playing =>
      var step := Step(g.ball, g.bricks, [g.paddle], Viewport);
      var hit := Slot(step.hits, g.brickThatWasHit);
      var played := g.(ball := step.ball, paddle := FollowTouch(g.paddle, touch),
                       brickThatWasHit := hit, bricks := DestroyHitBrick(g.bricks, hit));
      if IsGameOver(played) then played.(state := GameOver)
      else if PlayerWon(played) then played.(state := Won)
      else played
    case _ => g
  }

  /** A frame removes at most one brick, never adds one, and when the ball
      reported bricks it removes the last of them. */
  lemma FrameRemovesAtMostOne(g: Game, touch: Option<real>)
    ensures |g.bricks| - 1 <= |Render(g, touch).bricks| <= |g.bricks|
    ensures multiset(Render(g, touch).bricks) <= multiset(g.bricks)
    ensures g.state == Playing ==>
              var hits := Step(g.ball, g.bricks, [g.paddle], Viewport).hits;
              |hits| > 0 ==>
                && |Render(g, touch).bricks| == |g.bricks| - 1
                && multiset(Render(g, touch).bricks) == multiset(g.bricks) - multiset{hits[|hits| - 1]}
  {
    if g.state == Playing {
      var hits := Step(g.ball, g.bricks, [g.paddle], Viewport).hits;
      var slot := Slot(hits, g.brickThatWasHit);
      assert Render(g, touch).bricks == DestroyHitBrick(g.bricks, slot);
      if |hits| > 0 {
        assert hits[|hits| - 1] in hits;
        assert slot.value in g.bricks;
      }
    }
  }

  /** The coordinator's invariant: bricks are pairwise different and the
      brick in the listener slot has already been removed. */
  predicate Valid(g: Game)
  {
    NoDup(g.bricks) && (g.brickThatWasHit.Some? ==> g.brickThatWasHit.value !in g.bricks)
  }

  lemma NewGameValid(vx0: int)
    requires 1 <= vx0 <= MaxInitialVelocityX
    ensures Valid(NewGame(vx0))
  {
    GridDisjoint();
  }

  /** A frame keeps the invariant: the slot's brick is gone once the frame
      has removed it, and removal keeps the bricks distinct. */
  lemma RenderKeepsValid(g: Game, touch: Option<real>)
    requires Valid(g)
    ensures Valid(Render(g, touch))
  {
    if g.state == Playing {
      var step := Step(g.ball, g.bricks, [g.paddle], Viewport);
      var r := Render(g, touch);
      match r.brickThatWasHit
      case None =>
      case Some(brick) => RemoveFirstOfDistinct(g.bricks, brick);
    }
  }

  lemma TouchDownKeepsValid(g: Game, vx0: int)
    requires 1 <= vx0 <= MaxInitialVelocityX
    requires Valid(g)
    ensures Valid(TouchDown(g, vx0))
  {
    NewGameValid(vx0);
  }

  /** A slot left over from an earlier frame removes nothing: in a frame
      where the ball hits no brick the brick list is unchanged. */
  lemma StaleHitRemovesNothing(g: Game, touch: Option<real>)
    requires Valid(g) && g.state == Playing
    requires Step(g.ball, g.bricks, [g.paddle], Viewport).hits == []
    ensures Render(g, touch).bricks == g.bricks
  {
  }

  /** A frame in which the ball stays in play and hits no brick, with an
      empty listener slot, keeps playing with every brick. */
  lemma QuietFrame(g: Game, touch: Option<real>)
    requires g.state == Playing && g.brickThatWasHit.None? && |g.bricks| > 0
    requires Step(g.ball, g.bricks, [g.paddle], Viewport).hits == []
    requires !OutOfBounds(Step(g.ball, g.bricks, [g.paddle], Viewport).ball)
    ensures Render(g, touch).state == Playing
    ensures Render(g, touch).bricks == g.bricks
    ensures Render(g, touch).ball == Step(g.ball, g.bricks, [g.paddle], Viewport).ball
  {
  }

  /** The ball's first step from its spawn point meets no brick of the grid,
      no paddle at its start position and no wall, and leaves it in play. */
  lemma OpeningStep(b: Ball, p: Paddle)
    requires b.rect == Rect(384.0, 288.0, 32.0, 32.0) && 1.0 <= b.vx <= 5.0 && b.vy == -5.0
    requires p == Paddle(Rect(336.0, 20.0, 128.0, 32.0))
    ensures Step(b, Grid(), [p], Viewport).hits == []
    ensures Step(b, Grid(), [p], Viewport).ball.rect == Rect(384.0 + b.vx, 283.0, 32.0, 32.0)
    ensures !OutOfBounds(Step(b, Grid(), [p], Viewport).ball)
  {
    var step := Step(b, Grid(), [p], Viewport);
    var moved := Rect(384.0 + b.vx, 283.0, 32.0, 32.0);
    assert step.ball.rect == moved;
    assert step.hits == [] by {
      assert step.hits == Overlapping(moved, Grid());
      BelowBrickAreaHitsNothing(moved);
    }
  }

  /** The first frame of play from the initial layout: the ball moves by its
      velocity without touching anything, and play goes on with every brick. */
  lemma OpeningFrame(g: Game, touch: Option<real>)
    requires g.state == Playing && g.brickThatWasHit.None? && g.bricks == Grid()
    requires g.ball.rect == Rect(384.0, 288.0, 32.0, 32.0) && 1.0 <= g.ball.vx <= 5.0 && g.ball.vy == -5.0
    requires g.paddle == Paddle(Rect(336.0, 20.0, 128.0, 32.0))
    ensures Render(g, touch).state == Playing
    ensures Render(g, touch).bricks == Grid()
    ensures Render(g, touch).ball.rect == Rect(384.0 + g.ball.vx, 283.0, 32.0, 32.0)
  {
    OpeningStep(g.ball, g.paddle);
    GridLayout();
    QuietFrame(g, touch);
  }

  /** Touching the intro screen and running one frame. */
  lemma FirstFrame(vx0: int, vx1: int, touch: Option<real>)
    requires 1 <= vx0 <= MaxInitialVelocityX && 1 <= vx1 <= MaxInitialVelocityX
    ensures var r := Render(TouchDown(NewGame(vx0), vx1), touch);
            && r.state == Playing
            && r.bricks == Grid()
            && r.ball.rect == Rect(384.0 + vx0 as real, 283.0, 32.0, 32.0)
  {
    InitialLayout(vx0);
    OpeningFrame(TouchDown(NewGame(vx0), vx1), touch);
  }
}
