/** Blocks: the targets. A block has a health that each hit lowers by one; at zero or below
    it disappears, otherwise its colour follows its health. */
module Blocks {
  import opened Vectors
  import opened Constants
  import opened GameObjects

  /** The changing part of a block: its position and the state the hits drive. */
  datatype BlockView = BlockView(position: Vector2, health: int, colorIndex: int, visible: bool)

  /** The block invariant: health at most MAX_BLOCK_HEALTH, visible exactly while health is
      positive, and, while visible, the colour is the entry for the current health. */
  predicate HealthConsistent(v: BlockView) {
    && v.health <= MAX_BLOCK_HEALTH
    && (v.visible <==> v.health >= 1)
    && 0 <= v.colorIndex < |BLOCK_HEALTH_COLORS|
    && (v.visible ==> v.colorIndex == v.health - 1)
  }

  /** Block.init on values: the block is revived with the given health. */
  function Revive(v: BlockView, health: int): (r: BlockView)
    requires 1 <= health <= MAX_BLOCK_HEALTH
    ensures r.health == health && r.visible && r.position == v.position
    ensures HealthConsistent(r) && BLOCK_HEALTH_COLORS[r.colorIndex] == BLOCK_HEALTH_COLORS[health - 1]
  {
    v.(health := health, visible := true, colorIndex := health - 1)
  }

  /** Block.takeHit on values: the block after one hit, and whether the hit destroyed it. */
  function Hit(v: BlockView): (r: (BlockView, bool))
    ensures r.0.health == v.health - 1 && r.0.position == v.position
    ensures r.1 <==> r.0.health <= 0
    ensures r.1 ==> !r.0.visible && r.0.colorIndex == v.colorIndex
    ensures !r.1 ==> r.0.visible == v.visible && r.0.colorIndex == r.0.health - 1
  {
    var health := v.health - 1;
    if health <= 0 then (v.(health := health, visible := false), true)
    else (v.(health := health, colorIndex := health - 1), false)
  }

  /** A hit keeps the block invariant and never makes a block visible. */
  lemma HitKeepsHealthConsistent(v: BlockView)
    requires HealthConsistent(v)
    ensures HealthConsistent(Hit(v).0)
    ensures Hit(v).0.visible ==> v.visible
    ensures v.visible && v.health == 1 ==> Hit(v).1
  {
  }

  /** Hits never bring a block back: after any number of hits an invisible block stays
      invisible, and only Revive makes it visible again. */
  function HitTimes(v: BlockView, n: nat): BlockView
  {
    if n == 0 then v else Hit(HitTimes(v, n - 1)).0
  }

  lemma {:induction false} HitTimesLosesHealth(v: BlockView, n: nat)
    requires HealthConsistent(v)
    ensures HitTimes(v, n).health == v.health - n
    ensures HealthConsistent(HitTimes(v, n))
    ensures HitTimes(v, n).visible ==> v.visible
    ensures n >= v.health ==> !HitTimes(v, n).visible
  {
    if n > 0 {
      HitTimesLosesHealth(v, n - 1);
      HitKeepsHealthConsistent(HitTimes(v, n - 1));
    }
  }

  class Block {
    const body: GameObject
    var health: int
    /** Index of the block's colour in BLOCK_HEALTH_COLORS. */
    var colorIndex: int

    ghost predicate Valid()
      reads this`health, this`colorIndex, body`position, body`visible, body`width, body`height
    {
      body.width == BLOCK_WIDTH && body.height == BLOCK_HEIGHT && HealthConsistent(View())
    }

    function View(): BlockView
      reads this`health, this`colorIndex, body`position, body`visible
    {
      BlockView(body.position, health, colorIndex, body.visible)
    }

    constructor (x: real, y: real, startingHealth: int)
      requires 1 <= startingHealth <= MAX_BLOCK_HEALTH
      ensures Valid() && fresh(body)
      ensures View() == BlockView(Vector2(x, y), startingHealth, startingHealth - 1, true)
    {
      body := new GameObject(x, y, BLOCK_WIDTH, BLOCK_HEIGHT);
      new;
      Init(startingHealth);
    }

    /** Sets the colour from the current health; the colour table has MAX_BLOCK_HEALTH entries. */
    method UpdateColor()
      requires 1 <= health <= MAX_BLOCK_HEALTH
      modifies this`colorIndex
      ensures colorIndex == health - 1 && BLOCK_HEALTH_COLORS[colorIndex] == BLOCK_HEALTH_COLORS[health - 1]
    {
      colorIndex := health - 1;
    }

    /** Responds to a collision with the ball; returns whether the block is destroyed. */
    method TakeHit() returns (destroyed: bool)
      requires Valid()
      modifies this, body`visible
      ensures Valid()
      ensures (View(), destroyed) == Hit(old(View()))
    {
      health := health - 1;
      if health <= 0 {
        body.visible := false;
        return true;
      } else {
        UpdateColor();
      }
      return false;
    }

    predicate OnScreen(screenWidth: real, screenHeight: real)
      reads this, body
    {
      body.position.x < screenWidth &&
      body.position.x + body.width > 0.0 &&
      body.position.y < screenHeight &&
      body.position.y + body.height > 0.0
    }

    /** (Re)initialises the block with the given health. */
    method Init(health: int)
      requires 1 <= health <= MAX_BLOCK_HEALTH
      modifies this, body`visible
      ensures View() == Revive(old(View()), health)
    {
      this.health := health;
      body.visible := true;
      UpdateColor();
    }
  }

  /** A block is on screen exactly when its rectangle and the screen share an interior point. */
  lemma OnScreenMeansSharedInterior(b: Block, screenWidth: real, screenHeight: real)
    requires b.Valid() && screenWidth > 0.0 && screenHeight > 0.0
    ensures b.OnScreen(screenWidth, screenHeight) <==>
            exists px: real, py: real :: StrictlyInside(px, py, b.body.position, BLOCK_WIDTH, BLOCK_HEIGHT) &&
                                         StrictlyInside(px, py, Zero, screenWidth, screenHeight)
  {
    var p := b.body.position;
    if b.OnScreen(screenWidth, screenHeight) {
      var px := (Max(p.x, 0.0) + Min(p.x + BLOCK_WIDTH, screenWidth)) / 2.0;
      var py := (Max(p.y, 0.0) + Min(p.y + BLOCK_HEIGHT, screenHeight)) / 2.0;
      assert StrictlyInside(px, py, p, BLOCK_WIDTH, BLOCK_HEIGHT) && StrictlyInside(px, py, Zero, screenWidth, screenHeight);
    }
  }

  predicate StrictlyInside(px: real, py: real, corner: Vector2, width: real, height: real) {
    corner.x < px < corner.x + width && corner.y < py < corner.y + height
  }

  function Max(a: real, b: real): real { if a < b then b else a }
  function Min(a: real, b: real): real { if a < b then a else b }
}
