/** The ball: a circle that moves by its motion vector each frame, bounces off the side walls,
    the ceiling, blocks and the paddle, and is lost through the floor. */
module Balls {
  import opened Vectors
  import opened Constants
  import opened Util
  import opened GameObjects
  import opened Blocks
  import opened Paddles

  /** The run-time class of a GameObject reference, as `instanceof` tells them apart. */
  datatype Entity = BlockEntity(block: Block) | BallEntity(ball: Ball) | PaddleEntity(paddle: Paddle)
  {
    function Body(): GameObject {
      match this
      case BlockEntity(b) => b.body
      case BallEntity(b) => b.body
      case PaddleEntity(p) => p.body
    }
  }

  /** The next position would cross the left or the right wall. */
  predicate HitsSideWall(position: Vector2, motion: Vector2, radius: real, stageWidth: real) {
    position.x + motion.x + radius > stageWidth || position.x + motion.x - radius < 0.0
  }

  /** The next position would cross the ceiling. */
  predicate HitsCeiling(position: Vector2, motion: Vector2, radius: real, stageHeight: real) {
    position.y + motion.y + radius > stageHeight
  }

  /** Ball.move on values: the motion after bouncing off the side walls and the ceiling. Each
      component is either kept or negated; the floor never reflects. */
  function Bounce(position: Vector2, motion: Vector2, radius: real, stageWidth: real, stageHeight: real): (m: Vector2)
    ensures Abs(m.x) == Abs(motion.x) && Abs(m.y) == Abs(motion.y)
    ensures m.x == (if HitsSideWall(position, motion, radius, stageWidth) then -motion.x else motion.x)
    ensures m.y == (if HitsCeiling(position, motion, radius, stageHeight) then -motion.y else motion.y)
  {
    var m := if HitsSideWall(position, motion, radius, stageWidth) then motion.(x := -motion.x) else motion;
    if HitsCeiling(position, m, radius, stageHeight) then m.(y := -m.y) else m
  }

  /** The walls and the ceiling keep the ball in: a ball that fits between the walls and below
      the ceiling, moving less than half the free room per frame, still does after the move. */
  lemma BounceKeepsBallInside(position: Vector2, motion: Vector2, radius: real, stageWidth: real, stageHeight: real)
    requires radius >= 0.0
    requires radius <= position.x <= stageWidth - radius && position.y + radius <= stageHeight
    requires 2.0 * Abs(motion.x) <= stageWidth - 2.0 * radius
    requires 2.0 * Abs(motion.y) <= stageHeight - 2.0 * radius
    ensures var p := position.Add(Bounce(position, motion, radius, stageWidth, stageHeight));
            radius <= p.x <= stageWidth - radius && p.y + radius <= stageHeight
  {
  }

  /** Ball.collideWithBlock on values: negate the horizontal component if the ball, moved only
      horizontally, meets the block; likewise vertically; if neither, reverse the motion. */
  function BlockBounce(position: Vector2, motion: Vector2, radius: real,
                       blockPosition: Vector2, blockWidth: real, blockHeight: real): (m: Vector2)
    ensures Abs(m.x) == Abs(motion.x) && Abs(m.y) == Abs(motion.y)
    ensures m.x == -motion.x || m.y == -motion.y
  {
    var hitX := RectIntersectsCircle(position.x + motion.x, position.y, radius,
                                     blockPosition.x, blockPosition.y, blockWidth, blockHeight);
    var hitY := RectIntersectsCircle(position.x, position.y + motion.y, radius,
                                     blockPosition.x, blockPosition.y, blockWidth, blockHeight);
    var m1 := if hitX then motion.(x := -motion.x) else motion;
    var m2 := if hitY then m1.(y := -m1.y) else m1;
    if hitX || hitY then m2 else m2.Scale(-1.0)
  }

  /** Which components BlockBounce negates: x iff the horizontal probe hits, y iff the
      vertical probe hits, and both when neither does. */
  lemma BlockBounceAxes(position: Vector2, motion: Vector2, radius: real,
                        blockPosition: Vector2, blockWidth: real, blockHeight: real)
    ensures var hitX := RectIntersectsCircle(position.x + motion.x, position.y, radius,
                                             blockPosition.x, blockPosition.y, blockWidth, blockHeight);
            var hitY := RectIntersectsCircle(position.x, position.y + motion.y, radius,
                                             blockPosition.x, blockPosition.y, blockWidth, blockHeight);
            var m := BlockBounce(position, motion, radius, blockPosition, blockWidth, blockHeight);
            && m.x == (if hitX || !hitY then -motion.x else motion.x)
            && m.y == (if hitY || !hitX then -motion.y else motion.y)
  {
  }

  /** A reflection keeps the length of the motion vector. */
  lemma ReflectionKeepsLength(m: Vector2, n: Vector2)
    requires Abs(n.x) == Abs(m.x) && Abs(n.y) == Abs(m.y)
    ensures n.Length2() == m.Length2()
  {
    assert n.x * n.x == m.x * m.x by {
      if n.x != m.x { assert n.x == -m.x; }
    }
    assert n.y * n.y == m.y * m.y by {
      if n.y != m.y { assert n.y == -m.y; }
    }
  }

  /** Vector2.setLength multiplies a non-zero vector by its target length over its current
      length and leaves a zero vector alone. That factor needs a square root, so it is supplied
      as `s`, and this pins it down through squared lengths. */
  predicate ScalesToSquaredLength(s: real, v: Vector2, targetLength2: real) {
    s >= 0.0 && (v.Length2() != 0.0 ==> s * s * v.Length2() == targetLength2)
  }

  lemma ScaledToLength(v: Vector2, s: real, targetLength2: real)
    requires ScalesToSquaredLength(s, v, targetLength2)
    ensures v.Scale(s).Length2() == (if v.Length2() == 0.0 then 0.0 else targetLength2)
  {
    assert v.Scale(s).Length2() == s * s * v.Length2();
  }

  /** The vector from the trajectory origin, a point PADDLE_TRAJECTORY_ORIGIN_DEPTH below the
      middle of the paddle, to the ball. */
  function KickTrajectory(position: Vector2, paddlePosition: Vector2, paddleWidth: real): Vector2 {
    Vector2(position.x - (paddlePosition.x + paddleWidth / 2.0),
            position.y - (paddlePosition.y - PADDLE_TRAJECTORY_ORIGIN_DEPTH))
  }

  /** A kick sends the ball away from the trajectory origin: upwards whenever the ball is above
      the origin, and to the side of the paddle's middle on which it struck. */
  lemma KickPointsAwayFromOrigin(position: Vector2, paddlePosition: Vector2, paddleWidth: real, kickScale: real)
    requires kickScale > 0.0
    ensures var m := KickTrajectory(position, paddlePosition, paddleWidth).Scale(kickScale);
            && (position.y > paddlePosition.y - PADDLE_TRAJECTORY_ORIGIN_DEPTH ==> m.y > 0.0)
            && (position.x > paddlePosition.x + paddleWidth / 2.0 ==> m.x > 0.0)
            && (position.x < paddlePosition.x + paddleWidth / 2.0 ==> m.x < 0.0)
            && (position.x == paddlePosition.x + paddleWidth / 2.0 ==> m.x == 0.0)
  {
    var k := KickTrajectory(position, paddlePosition, paddleWidth);
    if k.y > 0.0 { assert kickScale * k.y > 0.0; }
    if k.x > 0.0 { assert kickScale * k.x > 0.0; }
    if k.x < 0.0 { assert kickScale * -k.x > 0.0; }
  }

  /** Ball.onScreen: the ball's bounding square overlaps the screen. */
  predicate CircleOnScreen(position: Vector2, radius: real, screenWidth: real, screenHeight: real) {
    position.x + radius > 0.0 && position.x - radius < screenWidth &&
    position.y + radius > 0.0 && position.y - radius < screenHeight
  }

  /** A ball kept between the walls and below the ceiling can only leave through the floor. */
  lemma LostOnlyThroughFloor(position: Vector2, radius: real, screenWidth: real, screenHeight: real)
    requires radius > 0.0
    requires radius <= position.x <= screenWidth - radius && position.y + radius <= screenHeight
    ensures !CircleOnScreen(position, radius, screenWidth, screenHeight) <==> position.y + radius <= 0.0
  {
  }

  class Ball {
    const body: GameObject
    const radius: real
    /** Displacement per frame. */
    var motion: Vector2
    const speed: real

    /** A ball of BALL_RADIUS at the origin. The source leaves the motion null until
        initHeading; here it starts as the zero vector, which nothing reads before the launch
        sets the heading. */
    constructor (speed: real)
      ensures fresh(body) && radius == BALL_RADIUS && this.speed == speed
      ensures body.width == 2.0 * radius && body.height == 2.0 * radius
      ensures body.position == Zero && body.visible && motion == Zero
    {
      body := new GameObject.Empty();
      radius := BALL_RADIUS;
      this.speed := speed;
      motion := Zero;
      new;
      body.width := radius * 2.0;
      body.height := radius * 2.0;
    }

    /** Moves by the motion vector, first bouncing off the side walls or the ceiling. */
    method Move(stageWidth: real, stageHeight: real)
      modifies this`motion, body`position
      ensures motion == Bounce(old(body.position), old(motion), radius, stageWidth, stageHeight)
      ensures body.position == old(body.position).Add(motion)
    {
      if body.position.x + motion.x + radius > stageWidth ||
         body.position.x + motion.x - radius < 0.0 {
        motion := motion.(x := -motion.x);
      }
      if body.position.y + motion.y + radius > stageHeight {
        motion := motion.(y := -motion.y);
      }
      body.position := body.position.Add(motion);
    }

    /** Rescales the motion to length speed * delta, keeping its direction; the rescaling
        factor is `lengthScale`. */
    method UpdateMotion(delta: real, lengthScale: real)
      requires ScalesToSquaredLength(lengthScale, motion, (speed * delta) * (speed * delta))
      modifies this`motion
      ensures motion == old(motion).Scale(lengthScale)
      ensures motion.Length2() == (if old(motion).Length2() == 0.0 then 0.0 else (speed * delta) * (speed * delta))
    {
      ScaledToLength(motion, lengthScale, (speed * delta) * (speed * delta));
      motion := motion.Scale(lengthScale);
    }

    /** Whether the ball, at its position or after its motion, meets the other's rectangle. */
    predicate DetectCollision(other: GameObject, afterMotion: bool)
      reads this, body, other
    {
      DetectCollisionAt(other, if afterMotion then body.position.Add(motion) else body.position, radius)
    }

    /** Whether a circle at the given centre meets the other's rectangle. */
    static predicate DetectCollisionAt(other: GameObject, position: Vector2, radius: real)
      reads other
    {
      RectIntersectsCircle(position.x, position.y, radius,
                           other.position.x, other.position.y, other.width, other.height)
    }

    /** Responds to a collision; returns whether a block was destroyed. */
    method Collide(other: Entity, kickScale: real) returns (destroyed: bool)
      requires other.PaddleEntity? ==>
                 ScalesToSquaredLength(kickScale, KickTrajectory(body.position, other.paddle.body.position,
                                                                 other.paddle.body.width), motion.Length2())
      requires other.BlockEntity? ==> other.block.Valid() && other.block.body != body
      modifies this`motion
      modifies if other.BlockEntity? then {other.block} else {}
      modifies (if other.BlockEntity? then {other.block.body} else {})`visible
      ensures other.BlockEntity? ==>
                && other.block.Valid()
                && motion == BlockBounce(body.position, old(motion), radius, other.block.body.position,
                                         other.block.body.width, other.block.body.height)
                && (other.block.View(), destroyed) == Hit(old(other.block.View()))
      ensures other.PaddleEntity? ==>
                && !destroyed
                && motion == KickTrajectory(body.position, other.paddle.body.position,
                                            other.paddle.body.width).Scale(kickScale)
      ensures other.BallEntity? ==> !destroyed && motion == old(motion)
    {
      if other.PaddleEntity? {
        KickOffPaddle(other.paddle, kickScale);
      } else if other.BlockEntity? {
        destroyed := CollideWithBlock(other.block);
        return;
      }
      return false;
    }

    /** Sends the ball away from the trajectory origin below the paddle at its current speed;
        `kickScale` is the factor Vector2.setLength applies to the trajectory. */
    method KickOffPaddle(paddle: Paddle, kickScale: real)
      requires ScalesToSquaredLength(kickScale, KickTrajectory(body.position, paddle.body.position, paddle.body.width),
                                     motion.Length2())
      modifies this`motion
      ensures motion == KickTrajectory(body.position, paddle.body.position, paddle.body.width).Scale(kickScale)
      ensures KickTrajectory(body.position, paddle.body.position, paddle.body.width).Length2() != 0.0 ==>
                motion.Length2() == old(motion).Length2()
    {
      var kickTrajectory := KickTrajectory(body.position, paddle.body.position, paddle.body.width);
      ScaledToLength(kickTrajectory, kickScale, motion.Length2());
      motion := kickTrajectory.Scale(kickScale);
    }

    /** Reflects off a block axis by axis, then hits the block once; returns whether it was destroyed. */
    method CollideWithBlock(block: Block) returns (destroyed: bool)
      requires block.Valid() && block.body != body
      modifies this`motion, block, block.body`visible
      ensures block.Valid()
      ensures motion == BlockBounce(body.position, old(motion), radius, block.body.position,
                                    block.body.width, block.body.height)
      ensures (block.View(), destroyed) == Hit(old(block.View()))
    {
      var changed := false;
      if RectIntersectsCircle(body.position.x + motion.x, body.position.y, radius,
                              block.body.position.x, block.body.position.y, block.body.width, block.body.height) {
        motion := motion.(x := -motion.x);
        changed := true;
      }
      if RectIntersectsCircle(body.position.x, body.position.y + motion.y, radius,
                              block.body.position.x, block.body.position.y, block.body.width, block.body.height) {
        motion := motion.(y := -motion.y);
        changed := true;
      }
      if !changed {
        motion := motion.Scale(-1.0);
      }
      destroyed := block.TakeHit();
    }

    predicate OnScreen(screenWidth: real, screenHeight: real)
      reads this, body
    {
      CircleOnScreen(body.position, radius, screenWidth, screenHeight)
    }

    /** Sets the motion, used to launch the ball. */
    method InitHeading(heading: Vector2)
      modifies this`motion
      ensures motion == heading
    {
      motion := heading;
    }
  }

  /** DetectCollision tests real contact: it holds exactly when the ball's disc, at the tested
      centre, and the other's rectangle share a point. */
  lemma DetectCollisionMeansContact(ball: Ball, other: GameObject, afterMotion: bool)
    requires ball.radius >= 0.0 && other.width >= 0.0 && other.height >= 0.0
    ensures var c := if afterMotion then ball.body.position.Add(ball.motion) else ball.body.position;
            ball.DetectCollision(other, afterMotion) <==>
            DiscMeetsRect(c.x, c.y, ball.radius, other.position.x, other.position.y, other.width, other.height)
  {
    var c := if afterMotion then ball.body.position.Add(ball.motion) else ball.body.position;
    RectIntersectsCircleMeansShared(c.x, c.y, ball.radius, other.position.x, other.position.y,
                                    other.width, other.height);
  }
}
