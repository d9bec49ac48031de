/** A brick and its collision check, which reports a hit to the brick's
    listener. The listener's calls are returned as a list instead of being
    made. */
module Bricks {
  import opened Geometry

  datatype Brick = Brick(rect: Rect)

  /** The outcome of one `collisionWithBall` call: its return value and the
      bricks passed to the listener, in call order. */
  datatype Check = Check(collided: bool, notified: seq<Brick>)

  /** `collisionWithBall`: a hit exactly when the ball overlaps the brick;
      the listener hears of a hit once, with this brick, and of a miss not at all. */
  function CollisionWithBall(brick: Brick, ball: Rect): (c: Check)
    ensures c.collided <==> Overlaps(ball, brick.rect)
    ensures c.collided ==> c.notified == [brick]
    ensures !c.collided ==> c.notified == []
  {
    if Overlaps(ball, brick.rect) then Check(true, [brick]) else Check(false, [])
  }

  /** The bricks a ball box overlaps, in list order, each list position at
      most once. */
  function Overlapping(ball: Rect, bricks: seq<Brick>): (hits: seq<Brick>)
    ensures |hits| <= |bricks|
    ensures forall k :: k in hits <==> k in bricks && Overlaps(ball, k.rect)
    ensures hits == [] <==> forall k :: k in bricks ==> !Overlaps(ball, k.rect)
  {
    if |bricks| == 0 then []
    else
      assert bricks == [bricks[0]] + bricks[1..];
      (if Overlaps(ball, bricks[0].rect) then [bricks[0]] else []) + Overlapping(ball, bricks[1..])
  }

  /** Each brick is reported at most as often as it occurs in the list. */
  lemma {:induction false} OverlappingSubMultiset(ball: Rect, bricks: seq<Brick>)
    ensures multiset(Overlapping(ball, bricks)) <= multiset(bricks)
    decreases |bricks|
  {
    if |bricks| > 0 {
      assert bricks == [bricks[0]] + bricks[1..];
      OverlappingSubMultiset(ball, bricks[1..]);
    }
  }

  /** Filtering a list split in two filters each part and keeps the parts
      in order. */
  lemma {:induction false} OverlappingAppend(ball: Rect, front: seq<Brick>, back: seq<Brick>)
    ensures Overlapping(ball, front + back) == Overlapping(ball, front) + Overlapping(ball, back)
    decreases |front|
  {
    if |front| > 0 {
      assert (front + back)[1..] == front[1..] + back;
      OverlappingAppend(ball, front[1..], back);
    } else {
      assert front + back == back;
    }
  }

  /** The last brick reported is the last brick in list order that the ball
      overlaps. */
  lemma OverlappingLast(ball: Rect, bricks: seq<Brick>, i: nat)
    requires i < |bricks| && Overlaps(ball, bricks[i].rect)
    requires forall j :: i < j < |bricks| ==> !Overlaps(ball, bricks[j].rect)
    ensures var hits := Overlapping(ball, bricks); |hits| > 0 && hits[|hits| - 1] == bricks[i]
  {
    var front, back := bricks[..i], bricks[i + 1..];
    assert bricks == front + [bricks[i]] + back;
    OverlappingAppend(ball, front + [bricks[i]], back);
    OverlappingAppend(ball, front, [bricks[i]]);
    assert Overlapping(ball, back) == [] by {
      forall k | k in back ensures !Overlaps(ball, k.rect) {
        var m :| 0 <= m < |back| && back[m] == k;
        assert back[m] == bricks[i + 1 + m];
      }
    }
    assert Overlapping(ball, [bricks[i]]) == [bricks[i]];
  }
}
