/** The part of libGDX's Vector2 that the game uses, as values: the game never shares a
    vector between two owners, so copying on update is the same as changing in place. */
module Vectors {

  datatype Vector2 = Vector2(x: real, y: real) {

    /** Vector2.add */
    function Add(v: Vector2): Vector2 {
      Vector2(x + v.x, y + v.y)
    }

    /** Vector2.scl */
    function Scale(s: real): Vector2 {
      Vector2(s * x, s * y)
    }

    /** Vector2.len2, the squared length */
    function Length2(): real {
      x * x + y * y
    }
  }

  const Zero := Vector2(0.0, 0.0)

  function Abs(r: real): real {
    if r < 0.0 then -r else r
  }
}
