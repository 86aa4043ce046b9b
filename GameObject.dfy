/** The state every game entity shares. */
module GameObjects {
  import opened Vectors

  /** A positioned rectangle: bottom-left corner, size, and whether it is drawn and collides. */
  class GameObject {
    var position: Vector2
    var width: real
    var height: real
    var visible: bool

    /** The no-argument constructor: at the origin, with the size left at 0 for the subclass to set. */
    constructor Empty()
      ensures GetX() == 0.0 && GetY() == 0.0
      ensures GetWidth() == 0.0 && GetHeight() == 0.0 && GetIsVisible()
    {
      position := Zero;
      width, height := 0.0, 0.0;
      visible := true;
    }

    constructor (x: real, y: real, width: real, height: real)
      ensures GetX() == x && GetY() == y
      ensures GetWidth() == width && GetHeight() == height && GetIsVisible()
    {
      position := Vector2(x, y);
      this.width := width;
      this.height := height;
      visible := true;
    }

    function GetX(): real
      reads this
    {
      position.x
    }

    function GetY(): real
      reads this
    {
      position.y
    }

    function GetWidth(): real
      reads this
    {
      width
    }

    function GetHeight(): real
      reads this
    {
      height
    }

    function GetIsVisible(): bool
      reads this
    {
      visible
    }

    method SetPosition(x: real, y: real)
      modifies this`position
      ensures GetX() == x && GetY() == y && position == Vector2(x, y)
    {
      position := Vector2(x, y);
    }

    /** Moves the object by a vector. */
    method Move(motion: Vector2)
      modifies this`position
      ensures GetX() == old(GetX()) + motion.x && GetY() == old(GetY()) + motion.y
      ensures position == old(position).Add(motion)
    {
      position := position.Add(motion);
    }
  }
}
