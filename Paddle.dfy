/** The player's paddle. Input moves it sideways; a move that would take it off the stage is
    undone rather than clamped. */
module Paddles {
  import opened Vectors
  import opened Constants
  import opened GameObjects

  /** The paddle's on-screen test: strictly inside the stage horizontally. */
  predicate InsideStage(x: real, width: real, screenWidth: real) {
    x > 0.0 && x + width < screenWidth
  }

  /** The horizontal displacement for one frame. The key directions add up to -1, 0 or 1;
      Vector2.setLength leaves a zero vector alone and scales a unit one to |length|. */
  function Displacement(left: bool, right: bool, delta: real): real {
    var length := Abs(PADDLE_SPEED * delta);
    if left == right then 0.0 else if left then -length else length
  }

  /** Left alone moves left and right alone moves right, by PADDLE_SPEED * delta for a forward
      frame; both keys or neither cancel out. */
  lemma DisplacementByKeys(left: bool, right: bool, delta: real)
    ensures var d := Displacement(left, right, delta);
            && (left && !right ==> d <= 0.0)
            && (right && !left ==> d >= 0.0)
            && (left == right ==> d == 0.0)
            && (delta >= 0.0 && left && !right ==> d == -PADDLE_SPEED * delta)
            && (delta >= 0.0 && right && !left ==> d == PADDLE_SPEED * delta)
  {
  }

  /** Paddle.update on values: move, then move back if the paddle left the stage. */
  function NextPosition(p: Vector2, width: real, delta: real, left: bool, right: bool,
                        screenWidth: real): Vector2
  {
    var motion := Vector2(Displacement(left, right, delta), 0.0);
    var moved := p.Add(motion);
    if InsideStage(moved.x, width, screenWidth) then moved else moved.Add(motion.Scale(-1.0))
  }

  /** The paddle moves only sideways; a move that leaves the stage is undone exactly, so a
      paddle on the stage stays on it. */
  lemma NextPositionRevertsOffStage(p: Vector2, width: real, delta: real, left: bool, right: bool,
                                    screenWidth: real)
    ensures var q := NextPosition(p, width, delta, left, right, screenWidth);
            var moved := p.x + Displacement(left, right, delta);
            && q.y == p.y
            && (if InsideStage(moved, width, screenWidth) then q.x == moved else q == p)
            && (InsideStage(p.x, width, screenWidth) ==> InsideStage(q.x, width, screenWidth))
  {
  }

  class Paddle {
    const body: GameObject

    constructor (x: real, y: real)
      ensures fresh(body)
      ensures body.position == Vector2(x, y) && body.visible
      ensures body.width == PADDLE_WIDTH && body.height == PADDLE_HEIGHT
    {
      body := new GameObject(x, y, PADDLE_WIDTH, PADDLE_HEIGHT);
    }

    /** Moves by PADDLE_SPEED * delta in the pressed direction; undoes the move if it takes
        the paddle off the stage. */
    method Update(delta: real, left: bool, right: bool, screenWidth: real)
      modifies body`position
      ensures body.position == NextPosition(old(body.position), body.width, delta, left, right, screenWidth)
    {
      var motion := Vector2(0.0, 0.0);
      if left { motion := motion.(x := motion.x - 1.0); }
      if right { motion := motion.(x := motion.x + 1.0); }
      motion := motion.Scale(Abs(PADDLE_SPEED * delta));
      assert motion == Vector2(Displacement(left, right, delta), 0.0);
      body.Move(motion);
      if !OnScreen(screenWidth, 0.0) {
        body.Move(motion.Scale(-1.0));
      }
    }

    /** The screen height plays no part. */
    predicate OnScreen(screenWidth: real, screenHeight: real)
      reads body`position, body`width
    {
      InsideStage(body.position.x, body.width, screenWidth)
    }
  }
}
