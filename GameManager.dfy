/** The game manager: owns the block grid, the ball and the paddle, runs one frame at a time,
    and keeps the score, the lives and the game state. Each operation is proved against the
    rules in GameRules. */
module GameManagers {
  import opened Vectors
  import opened Constants
  import opened GameObjects
  import opened Blocks
  import opened Paddles
  import opened Balls
  import opened GameRules

  /** The bodies of a set of blocks. */
  function Bodies(s: set<Block>): set<GameObject> {
    set b | b in s :: b.body
  }

  /** The state of every block of a grid. */
  ghost function Views(grid: seq<seq<Block>>): map<Block, BlockView>
    reads GridSet(grid)`health, GridSet(grid)`colorIndex, Bodies(GridSet(grid))`position, Bodies(GridSet(grid))`visible
  {
    map b | b in GridSet(grid) :: b.View()
  }

  ghost predicate AllValid(grid: seq<seq<Block>>)
    reads GridSet(grid)`health, GridSet(grid)`colorIndex, Bodies(GridSet(grid))`position, Bodies(GridSet(grid))`visible
    reads Bodies(GridSet(grid))`width, Bodies(GridSet(grid))`height
  {
    forall b :: b in GridSet(grid) ==> b.Valid()
  }

  class GameManager {
    var lives: int
    var score: int
    var state: GameState
    const difficulty: Difficulty
    const stageWidth: real
    const stageHeight: real
    const numRows: int
    const numColumns: int
    const numBlocks: int
    /** Every game object: the grid row by row, then the ball, then the paddle. */
    var gameObjects: seq<Entity>
    /** The block grid, row 0 at the top. */
    var blocks: seq<seq<Block>>
    var spawnRate: real
    var ball: Ball?
    var paddle: Paddle?

    /** Every object the manager's state lives in. */
    ghost function Repr(): set<object>
      reads this`ball, this`paddle, this`blocks
    {
      {this} + (if ball != null then {ball, ball.body} else {}) + (if paddle != null then {paddle, paddle.body} else {})
      + GridSet(blocks) + Bodies(GridSet(blocks))
    }

    /** The bodies of the ball and the paddle. */
    function BodiesOfParts(): set<GameObject>
      reads this`ball, this`paddle
    {
      (if ball != null then {ball.body} else {}) + (if paddle != null then {paddle.body} else {})
    }

    /** The stage fixes the grid's size. */
    predicate Sized() {
      && stageWidth >= 0.0 && stageHeight >= 0.0
      && numColumns == NumColumns(stageWidth) && numRows == NumRows(stageHeight)
      && numBlocks == numRows * numColumns
    }

    /** The manager after init: a numRows by numColumns grid of valid blocks, each with its own
        body, listed row by row in gameObjects ahead of the ball and the paddle. */
    ghost predicate Valid()
      reads this`blocks, this`gameObjects, this`ball, this`paddle, this`spawnRate
      reads GridSet(blocks)`health, GridSet(blocks)`colorIndex
      reads Bodies(GridSet(blocks))`position, Bodies(GridSet(blocks))`visible
      reads Bodies(GridSet(blocks))`width, Bodies(GridSet(blocks))`height
      reads BodiesOfParts()`width, BodiesOfParts()`height, BodiesOfParts()`visible
    {
      Shaped() && Separate() && AllValid(blocks) && PartsSized()
    }

    /** The grid's dimensions and the order of gameObjects. */
    predicate Shaped()
      reads this`blocks, this`gameObjects, this`ball, this`paddle
    {
      && Sized()
      && ball != null && paddle != null
      && |blocks| == numRows && (forall i :: 0 <= i < |blocks| ==> |blocks[i]| == numColumns)
      && gameObjects == GridEntities(blocks) + [BallEntity(ball), PaddleEntity(paddle)]
    }

    /** Every block, the ball and the paddle has a body of its own. */
    predicate Separate()
      reads this`blocks, this`ball, this`paddle
    {
      && (forall b1, b2 :: b1 in GridSet(blocks) && b2 in GridSet(blocks) && b1 != b2 ==> b1.body != b2.body)
      && ball != null && paddle != null
      && ball.body !in Bodies(GridSet(blocks)) && paddle.body !in Bodies(GridSet(blocks)) && ball.body != paddle.body
    }

    /** The ball and the paddle as init creates them, for this difficulty. */
    predicate PartsSized()
      reads this`ball, this`paddle, this`spawnRate
      reads BodiesOfParts()`width, BodiesOfParts()`height, BodiesOfParts()`visible
    {
      && ball != null && paddle != null
      && ball.radius == BALL_RADIUS && ball.body.width == 2.0 * BALL_RADIUS && ball.body.height == 2.0 * BALL_RADIUS
      && ball.speed == BallSpeed(difficulty) && spawnRate == SpawnRate(difficulty)
      && paddle.body.width == PADDLE_WIDTH && paddle.body.height == PADDLE_HEIGHT && paddle.body.visible
    }

    /** The whole state update changes. */
    ghost function View(): World
      requires ball != null && paddle != null
      reads this, Repr()
    {
      World(Views(blocks), paddle.body.position, ball.body.position, ball.motion, score, lives, state)
    }

    /** What update reads but does not change. */
    ghost function Setup(): Config
      reads this
    {
      Config(blocks, gameObjects, stageWidth, stageHeight, difficulty)
    }

    /** Sizes the grid to the stage; the objects are created by Init. The source leaves the
        state null until init; here it starts at READY, with score and lives 0, and Init sets
        all three before anything reads them. */
    constructor (difficulty: Difficulty, width: real, height: real)
      requires width >= 0.0 && height >= 0.0
      ensures Sized() && this.difficulty == difficulty && stageWidth == width && stageHeight == height
      ensures blocks == [] && gameObjects == [] && ball == null && paddle == null
    {
      this.difficulty := difficulty;
      stageWidth := width;
      stageHeight := height;
      numColumns := Trunc(width / BLOCK_WIDTH);
      numRows := Trunc(BLOCK_AREA_SCREEN_RATIO * height / BLOCK_HEIGHT);
      numBlocks := Trunc(BLOCK_AREA_SCREEN_RATIO * height / BLOCK_HEIGHT) * Trunc(width / BLOCK_WIDTH);
      gameObjects := [];
      blocks := [];
      lives, score, state := 0, 0, Ready;
      spawnRate := 0.0;
      ball, paddle := null, null;
    }

    /** init: score 0 and STARTING_LIVES, the grid, the ball's speed and the spawn rate for the
        difficulty (MEDIUM's as the default), the paddle centred at PADDLE_HEIGHT, the ball
        resting on it, and READY. */
    method Init()
      requires Sized() && blocks == [] && gameObjects == []
      modifies this
      ensures Valid()
      ensures score == 0 && lives == STARTING_LIVES && state == Ready
      ensures paddle.body.position == Vector2(stageWidth / 2.0 - PADDLE_WIDTH / 2.0, PADDLE_HEIGHT)
      ensures ball.body.position == RestingPosition(paddle.body.position) && ball.motion == Zero
      ensures forall i, j :: 0 <= i < numRows && 0 <= j < numColumns ==>
                blocks[i][j].View() == InitialBlock(stageHeight, numRows, i, j)
      ensures GridInMap(blocks, Views(blocks))
      ensures stageWidth > PADDLE_WIDTH ==> WorldInvariant(Setup(), View())
    {
      score := 0;
      lives := STARTING_LIVES;
      GenerateBlocks();
      label grid:
      var speed;
      speed, spawnRate := DifficultySettings();
      CreateParts(speed);
      GridKept@grid();
      ValidMeansConsistent();
    }

    /** Every block of a valid manager is in a consistent state. */
    lemma ValidMeansConsistent()
      requires Valid()
      ensures GridInMap(blocks, Views(blocks)) && AllHealthConsistent(Views(blocks))
    {
      forall i, j | 0 <= i < |blocks| && 0 <= j < |blocks[i]|
        ensures blocks[i][j] in Views(blocks)
      {
        assert blocks[i][j] in GridSet(blocks);
      }
    }

    /** init's switch on the difficulty: the ball's speed and the seconds between spawns. */
    method DifficultySettings() returns (speed: real, rate: real)
      ensures speed == BallSpeed(difficulty) && rate == SpawnRate(difficulty)
      ensures speed > 0.0 && rate > 0.0
    {
      match difficulty {
        case Easy =>
          speed, rate := BALL_SPEED_EASY, BLOCK_SPAWN_RATE_EASY;
        case Medium =>
          speed, rate := BALL_SPEED_MEDIUM, BLOCK_SPAWN_RATE_MEDIUM;
        case Hard =>
          speed, rate := BALL_SPEED_HARD, BLOCK_SPAWN_RATE_HARD;
      }
    }

    /** The end of init: the ball and the paddle, added to gameObjects after the grid, the ball
        resting on top of the paddle, and READY. */
    method CreateParts(speed: real)
      modifies this`ball, this`paddle, this`gameObjects, this`state
      ensures state == Ready
      ensures ball != null && paddle != null
      ensures fresh(ball) && fresh(ball.body) && fresh(paddle) && fresh(paddle.body) && ball.body != paddle.body
      ensures gameObjects == old(gameObjects) + [BallEntity(ball), PaddleEntity(paddle)]
      ensures ball.radius == BALL_RADIUS && ball.body.width == 2.0 * BALL_RADIUS && ball.body.height == 2.0 * BALL_RADIUS
      ensures ball.speed == speed && ball.motion == Zero
      ensures paddle.body.width == PADDLE_WIDTH && paddle.body.height == PADDLE_HEIGHT && paddle.body.visible
      ensures paddle.body.position == Vector2(stageWidth / 2.0 - PADDLE_WIDTH / 2.0, PADDLE_HEIGHT)
      ensures ball.body.position == RestingPosition(paddle.body.position)
    {
      ball := new Ball(speed);
      gameObjects := gameObjects + [BallEntity(ball)];
      paddle := new Paddle(stageWidth / 2.0 - PADDLE_WIDTH / 2.0, PADDLE_HEIGHT);
      gameObjects := gameObjects + [PaddleEntity(paddle)];
      ball.body.SetPosition(paddle.body.GetX() + paddle.body.GetWidth() / 2.0,
                            paddle.body.GetY() + paddle.body.GetHeight() + ball.body.GetHeight() / 2.0);
      state := Ready;
    }

    /** The starting health of a row: the first band the row falls in, counting from the top. */
    method GetStartingHealthByRow(row: int) returns (health: int)
      ensures health == StartingHealth(numRows, row)
    {
      var rowsPerValue := Round(numRows as real * 1.0 / MAX_BLOCK_HEALTH as real);
      var i := 1;
      while i <= MAX_BLOCK_HEALTH
        invariant 1 <= i <= MAX_BLOCK_HEALTH + 1 && rowsPerValue == RowsPerValue(numRows)
        invariant i > 1 ==> row >= rowsPerValue * (i - 1)
      {
        if row < rowsPerValue * i {
          InFirstBand(numRows, row, i);
          return MAX_BLOCK_HEALTH - i + 1;
        }
        i := i + 1;
      }
      PastTheBands(numRows, row);
      return MAX_BLOCK_HEALTH;
    }

    /** The block of a row and a column, at its place in the grid. */
    method GenerateBlock(row: int, column: int, startingHealth: int) returns (block: Block)
      requires 1 <= startingHealth <= MAX_BLOCK_HEALTH
      ensures fresh(block) && fresh(block.body) && block.Valid()
      ensures block.View() == BlockView(BlockPosition(stageHeight, row, column), startingHealth, startingHealth - 1, true)
    {
      var x := column as real * BLOCK_WIDTH;
      var y := stageHeight - (row + 1) as real * BLOCK_HEIGHT;
      block := new Block(x, y, startingHealth);
    }

    /** Fills the grid row by row, adding each block to gameObjects. */
    method GenerateBlocks()
      requires Sized() && blocks == [] && gameObjects == []
      modifies this`blocks, this`gameObjects
      ensures |blocks| == numRows && (forall i :: 0 <= i < |blocks| ==> |blocks[i]| == numColumns)
      ensures gameObjects == GridEntities(blocks)
      ensures forall i, j :: 0 <= i < |blocks| && 0 <= j < |blocks[i]| ==>
                && fresh(blocks[i][j]) && fresh(blocks[i][j].body) && blocks[i][j].Valid()
                && blocks[i][j].View() == InitialBlock(stageHeight, numRows, i, j)
      ensures DistinctBodies(blocks) && AllValid(blocks)
      ensures forall b1, b2 :: b1 in GridSet(blocks) && b2 in GridSet(blocks) && b1 != b2 ==> b1.body != b2.body
    {
      var i := 0;
      while i < numRows
        invariant 0 <= i <= numRows && |blocks| == i
        invariant forall r :: 0 <= r < i ==> |blocks[r]| == numColumns
        invariant gameObjects == GridEntities(blocks)
        invariant forall r, c :: 0 <= r < i && 0 <= c < |blocks[r]| ==>
                    && fresh(blocks[r][c]) && fresh(blocks[r][c].body) && blocks[r][c].Valid()
                    && blocks[r][c].View() == InitialBlock(stageHeight, numRows, r, c)
        invariant DistinctBodies(blocks)
      {
        AddRow(i);
        i := i + 1;
      }
      DistinctBodiesMeansDistinctBlocks(blocks);
      CellsValid(blocks);
    }

    /** One pass of generateBlocks' outer loop: row i of the grid, appended below the others. */
    method AddRow(i: int)
      requires DistinctBodies(blocks) && gameObjects == GridEntities(blocks)
      modifies this`blocks, this`gameObjects
      ensures |blocks| == |old(blocks)| + 1 && blocks[..|old(blocks)|] == old(blocks)
      ensures |blocks[|old(blocks)|]| == if numColumns < 0 then 0 else numColumns
      ensures gameObjects == GridEntities(blocks)
      ensures forall c :: 0 <= c < |blocks[|old(blocks)|]| ==>
                var b := blocks[|old(blocks)|][c];
                fresh(b) && fresh(b.body) && b.Valid() && b.View() == InitialBlock(stageHeight, numRows, i, c)
      ensures DistinctBodies(blocks)
    {
      var row := GenerateRow(i);
      assert GridEntities(blocks + [row]) == GridEntities(blocks) + RowEntities(row) by { GridGrows(blocks, row); }
      assert DistinctBodies(blocks + [row]) by { AppendRowKeepsDistinct(blocks, row); }
      blocks := blocks + [row];
    }

    /** One pass of generateBlocks' inner loop: the blocks of one row, left to right, each
        added to gameObjects. */
    method GenerateRow(i: int) returns (row: seq<Block>)
      modifies this`gameObjects
      ensures |row| == if numColumns < 0 then 0 else numColumns
      ensures gameObjects == old(gameObjects) + RowEntities(row)
      ensures forall c :: 0 <= c < |row| ==>
                && fresh(row[c]) && fresh(row[c].body) && row[c].Valid()
                && row[c].View() == InitialBlock(stageHeight, numRows, i, c)
      ensures forall c1, c2 :: 0 <= c1 < c2 < |row| ==> row[c1].body != row[c2].body
    {
      row := [];
      var j := 0;
      while j < numColumns
        invariant |row| == j && (j == 0 || j <= numColumns)
        invariant gameObjects == old(gameObjects) + RowEntities(row)
        invariant forall c :: 0 <= c < j ==>
                    && fresh(row[c]) && fresh(row[c].body) && row[c].Valid()
                    && row[c].View() == InitialBlock(stageHeight, numRows, i, c)
        invariant forall c1, c2 :: 0 <= c1 < c2 < j ==> row[c1].body != row[c2].body
      {
        var health := GetStartingHealthByRow(i);
        var block := GenerateBlock(i, j, health);
        assert RowEntities(row + [block]) == RowEntities(row) + [BlockEntity(block)];
        row := row + [block];
        gameObjects := gameObjects + [BlockEntity(block)];
        j := j + 1;
      }
    }

    /** isGameWon: no block of the grid is visible. */
    method IsGameWon() returns (won: bool)
      ensures won <==> Cleared(Views(blocks))
    {
      for i := 0 to |blocks|
        invariant forall r, c :: 0 <= r < i && 0 <= c < |blocks[r]| ==> !blocks[r][c].body.visible
      {
        for j := 0 to |blocks[i]|
          invariant forall r, c :: 0 <= r < i && 0 <= c < |blocks[r]| ==> !blocks[r][c].body.visible
          invariant forall c :: 0 <= c < j ==> !blocks[i][c].body.visible
        {
          if blocks[i][j].body.visible {
            assert blocks[i][j] in GridSet(blocks);
            assert Views(blocks)[blocks[i][j]].visible;
            return false;
          }
        }
      }
      return true;
    }

    /** generateRandomBlock, with `pick` the random draw: lists the open cells row by row,
        then revives the chosen one with health 1. */
    method GenerateRandomBlock(pick: real)
      requires Valid() && 0.0 <= pick < 1.0
      modifies GridSet(blocks), Bodies(GridSet(blocks))`visible
      ensures Valid()
      ensures Views(blocks) == Regenerate(blocks, old(Views(blocks)), pick)
    {
      ghost var views := Views(blocks);
      var openPositions := ListOpenPositions();
      if |openPositions| == 0 {
        return;
      }
      var position := openPositions[PickIndex(pick, |openPositions|)];
      assert InGrid(blocks, position) by {
        OpenPositionsExact(blocks, views);
      }
      var block := blocks[position.0][position.1];
      assert block in GridSet(blocks);
      assert Regenerate(blocks, views, pick) == views[block := Revive(views[block], 1)];
      ReviveBlock(block);
    }

    /** The block generateRandomBlock picked, brought back with health 1. */
    method ReviveBlock(block: Block)
      requires Valid() && block in GridSet(blocks)
      modifies block, block.body`visible
      ensures Valid() && Views(blocks) == old(Views(blocks))[block := Revive(old(block.View()), 1)]
    {
      block.Init(1);
      OneBlockChanged(block);
    }

    /** The first half of generateRandomBlock: the cells of destroyed blocks, row by row. */
    method ListOpenPositions() returns (openPositions: seq<(int, int)>)
      requires Valid()
      ensures openPositions == OpenPositions(blocks, Views(blocks))
    {
      ghost var views := Views(blocks);
      openPositions := [];
      for i := 0 to numRows
        invariant openPositions == OpenInRows(blocks, views, i)
      {
        for j := 0 to numColumns
          invariant openPositions == OpenInRows(blocks, views, i) + OpenInRow(blocks, views, i, j)
        {
          assert blocks[i][j] in GridSet(blocks);
          if !blocks[i][j].body.visible {
            openPositions := openPositions + [(i, j)];
          }
        }
      }
    }

    /** One iteration of update's collision loop: a visible object other than the ball that
        the ball would meet after its motion is collided with, and the score follows. Returns
        whether that destroyed the last block. */
    method CollideWith(e: Entity, kickScale: real) returns (won: bool)
      requires Valid() && e in gameObjects
      requires ScalesToSquaredLength(kickScale, KickTrajectory(ball.body.position, paddle.body.position, PADDLE_WIDTH),
                                     ball.motion.Length2())
      modifies this`score, ball`motion, GridSet(blocks), Bodies(GridSet(blocks))`visible
      ensures Valid()
      ensures ScalesToSquaredLength(kickScale, KickTrajectory(ball.body.position, paddle.body.position, PADDLE_WIDTH),
                                    ball.motion.Length2())
      ensures PassState(Views(blocks), ball.motion, score, won)
           == Step(Contact(ball.body.position, paddle.body.position, kickScale),
                   PassState(old(Views(blocks)), old(ball.motion), old(score), false), e)
    {
      ghost var k := Contact(ball.body.position, paddle.body.position, kickScale);
      GuardMeansTouch(k, PassState(Views(blocks), ball.motion, score, false), e);
      won := false;
      if e.Body().visible && !e.BallEntity? && ball.DetectCollision(e.Body(), true) {
        EntityKinds(blocks, ball, paddle, e);
        if e.BlockEntity? {
          won := HitBlock(e.block, kickScale);
        } else {
          var destroyed := CollideWithPaddle(kickScale);
        }
      }
    }

    /** The body of the collision loop once the ball meets a block: collide, then score
        BLOCK_DESTROY_SCORE_INCREASE for a destroyed block, ending the pass if it was the last,
        or BLOCK_HIT_SCORE_INCREASE for a hit. */
    method HitBlock(block: Block, kickScale: real) returns (won: bool)
      requires Valid() && block in GridSet(blocks)
      requires TouchesBlock(Contact(ball.body.position, paddle.body.position, kickScale), ball.motion, Views(blocks)[block])
      requires ScalesToSquaredLength(kickScale, KickTrajectory(ball.body.position, paddle.body.position, PADDLE_WIDTH),
                                     ball.motion.Length2())
      modifies this`score, ball`motion, GridSet(blocks), Bodies(GridSet(blocks))`visible
      ensures Valid()
      ensures ScalesToSquaredLength(kickScale, KickTrajectory(ball.body.position, paddle.body.position, PADDLE_WIDTH),
                                    ball.motion.Length2())
      ensures PassState(Views(blocks), ball.motion, score, won)
           == Step(Contact(ball.body.position, paddle.body.position, kickScale),
                   PassState(old(Views(blocks)), old(ball.motion), old(score), false), BlockEntity(block))
    {
      ghost var k := Contact(ball.body.position, paddle.body.position, kickScale);
      ghost var s := PassState(Views(blocks), ball.motion, score, false);
      ghost var v := s.blocks[block];
      StepOnTouchedBlock(k, s, block);
      var destroyed := CollideWithBlock(block, kickScale);
      won := ScoreBlock(destroyed);
    }

    /** The scoring after a block collision: BLOCK_DESTROY_SCORE_INCREASE and the isGameWon test
        for a destroyed block, BLOCK_HIT_SCORE_INCREASE for a hit one. */
    method ScoreBlock(destroyed: bool) returns (won: bool)
      requires Valid()
      modifies this`score
      ensures Valid() && Views(blocks) == old(Views(blocks))
      ensures score == old(score) + (if destroyed then BLOCK_DESTROY_SCORE_INCREASE else BLOCK_HIT_SCORE_INCREASE)
      ensures won <==> destroyed && Cleared(Views(blocks))
    {
      won := false;
      if destroyed {
        score := score + BLOCK_DESTROY_SCORE_INCREASE;
        StructureKept();
        won := IsGameWon();
      } else {
        score := score + BLOCK_HIT_SCORE_INCREASE;
      }
      StructureKept();
    }

    /** The guard of the collision loop, on a block or the paddle, is the contact Step tests. */
    lemma GuardMeansTouch(k: Contact, s: PassState, e: Entity)
      requires Valid() && e in gameObjects
      requires k == Contact(ball.body.position, paddle.body.position, k.kickScale)
      requires s.blocks == Views(blocks) && s.motion == ball.motion && !s.won
      ensures var touches := e.Body().visible && !e.BallEntity? && ball.DetectCollision(e.Body(), true);
              && (e.BlockEntity? ==> e.block in s.blocks && (touches <==> TouchesBlock(k, s.motion, s.blocks[e.block])))
              && (e.PaddleEntity? ==> (touches <==> TouchesPaddle(k, s.motion)))
              && (!touches ==> Step(k, s, e) == s)
    {
      EntityKinds(blocks, ball, paddle, e);
    }

    /** ball.collide on a block of the grid, seen through the manager's state: the ball
        bounces and the block takes a hit. */
    method CollideWithBlock(block: Block, kickScale: real) returns (destroyed: bool)
      requires Valid() && block in GridSet(blocks)
      requires ScalesToSquaredLength(kickScale, KickTrajectory(ball.body.position, paddle.body.position, PADDLE_WIDTH),
                                     ball.motion.Length2())
      modifies ball`motion, GridSet(blocks), Bodies(GridSet(blocks))`visible
      ensures Valid()
      ensures ScalesToSquaredLength(kickScale, KickTrajectory(ball.body.position, paddle.body.position, PADDLE_WIDTH),
                                    ball.motion.Length2())
      ensures (Views(blocks), destroyed) == (old(Views(blocks))[block := Hit(old(Views(blocks))[block]).0],
                                             Hit(old(Views(blocks))[block]).1)
      ensures ball.motion == BlockBounce(ball.body.position, old(ball.motion), BALL_RADIUS,
                                         block.body.position, BLOCK_WIDTH, BLOCK_HEIGHT)
    {
      ghost var views := Views(blocks);
      assert block.View() == views[block];
      destroyed := ball.Collide(BlockEntity(block), kickScale);
      OneBlockChanged(block);
      ReflectionKeepsLength(old(ball.motion), ball.motion);
    }

    /** ball.collide on the paddle: the ball is kicked away from the trajectory origin. */
    method CollideWithPaddle(kickScale: real) returns (destroyed: bool)
      requires Valid()
      requires ScalesToSquaredLength(kickScale, KickTrajectory(ball.body.position, paddle.body.position, PADDLE_WIDTH),
                                     ball.motion.Length2())
      modifies ball`motion
      ensures Valid() && Views(blocks) == old(Views(blocks)) && !destroyed
      ensures ScalesToSquaredLength(kickScale, KickTrajectory(ball.body.position, paddle.body.position, PADDLE_WIDTH),
                                    ball.motion.Length2())
      ensures ball.motion == KickTrajectory(ball.body.position, paddle.body.position, PADDLE_WIDTH).Scale(kickScale)
    {
      ScaledToLength(KickTrajectory(ball.body.position, paddle.body.position, PADDLE_WIDTH), kickScale,
                     ball.motion.Length2());
      destroyed := ball.Collide(PaddleEntity(paddle), kickScale);
      StructureKept();
    }

    /** calculateWinBonus, with `elapsed` the seconds since init. */
    method CalculateWinBonus(elapsed: real) returns (bonus: int)
      requires elapsed > 0.0
      ensures bonus == WinBonus(difficulty, elapsed, lives)
    {
      var total := 0.0;
      total := total + (TARGET_GAME_TIME / elapsed) * TIME_SCORE_BONUS_FACTOR;
      match difficulty {
        case Easy => total := total + EASY_WIN_BONUS;
        case Medium => total := total + MEDIUM_WIN_BONUS;
        case Hard => total := total + HARD_WIN_BONUS;
      }
      total := total + lives as real * REMAINING_LIVES_BONUS;
      bonus := Trunc(total);
    }

    method Win(elapsed: real)
      requires elapsed > 0.0
      modifies this`score, this`state
      ensures score == old(score) + WinBonus(difficulty, elapsed, lives) && state == GameState.Win
    {
      var bonus := CalculateWinBonus(elapsed);
      score := score + bonus;
      state := GameState.Win;
    }

    method GameOver()
      modifies this`score, this`state
      ensures score == old(score) - GAME_OVER_SCORE_DECREMENT && state == GameState.GameOver
    {
      score := score - GAME_OVER_SCORE_DECREMENT;
      state := GameState.GameOver;
    }

    /** The collision loop of update: every object of gameObjects in list order, each against
        the motion the earlier collisions left, until the last block is destroyed. */
    method ResolveCollisions(kickScale: real) returns (won: bool)
      requires Valid()
      requires ScalesToSquaredLength(kickScale, KickTrajectory(ball.body.position, paddle.body.position, PADDLE_WIDTH),
                                     ball.motion.Length2())
      modifies this`score, ball`motion, GridSet(blocks), Bodies(GridSet(blocks))`visible
      ensures Valid()
      ensures PassState(Views(blocks), ball.motion, score, won)
           == Pass(Contact(ball.body.position, paddle.body.position, kickScale),
                   PassState(old(Views(blocks)), old(ball.motion), old(score), false), gameObjects)
    {
      ghost var k := Contact(ball.body.position, paddle.body.position, kickScale);
      ghost var s0 := PassState(Views(blocks), ball.motion, score, false);
      won := false;
      var i := 0;
      while i < |gameObjects| && !won
        invariant 0 <= i <= |gameObjects|
        invariant Valid()
        invariant k == Contact(ball.body.position, paddle.body.position, kickScale)
        invariant ScalesToSquaredLength(kickScale, KickTrajectory(ball.body.position, paddle.body.position, PADDLE_WIDTH),
                                        ball.motion.Length2())
        invariant PassState(Views(blocks), ball.motion, score, won) == Pass(k, s0, gameObjects[..i])
      {
        won := CollideNext(i, kickScale, k, s0);
        i := i + 1;
      }
      if won {
        PassStopsAtWin(k, s0, gameObjects, i);
      } else {
        assert gameObjects[..i] == gameObjects;
      }
    }

    /** One pass of the collision loop: the i-th object of gameObjects, extending the pass so
        far by one step. */
    method CollideNext(i: int, kickScale: real, ghost k: Contact, ghost s0: PassState) returns (won: bool)
      requires Valid() && 0 <= i < |gameObjects|
      requires k == Contact(ball.body.position, paddle.body.position, kickScale)
      requires ScalesToSquaredLength(kickScale, KickTrajectory(ball.body.position, paddle.body.position, PADDLE_WIDTH),
                                     ball.motion.Length2())
      requires PassState(Views(blocks), ball.motion, score, false) == Pass(k, s0, gameObjects[..i])
      modifies this`score, ball`motion, GridSet(blocks), Bodies(GridSet(blocks))`visible
      ensures Valid() && k == Contact(ball.body.position, paddle.body.position, kickScale)
      ensures ScalesToSquaredLength(kickScale, KickTrajectory(ball.body.position, paddle.body.position, PADDLE_WIDTH),
                                    ball.motion.Length2())
      ensures PassState(Views(blocks), ball.motion, score, won) == Pass(k, s0, gameObjects[..i + 1])
    {
      assert Pass(k, s0, gameObjects[..i + 1]) == Step(k, Pass(k, s0, gameObjects[..i]), gameObjects[i]) by {
        assert gameObjects[..i + 1][..i] == gameObjects[..i];
      }
      won := CollideWith(gameObjects[i], kickScale);
    }

    /** The PLAYING branch of update, after the paddle has moved: the speed update, the
        collision loop, then either the win or the ball's move. Returns whether update returns
        at once (won or game over), skipping the spawn check. */
    method PlayingFrame(f: FrameInput) returns (returned: bool)
      requires Valid() && InputInRange(f) && state == Playing
      requires ScalesToSquaredLength(f.lengthScale, ball.motion, (ball.speed * f.delta) * (ball.speed * f.delta))
      requires ScalesToSquaredLength(f.kickScale, KickTrajectory(ball.body.position, paddle.body.position, PADDLE_WIDTH),
                                     ball.motion.Scale(f.lengthScale).Length2())
      modifies this`score, this`lives, this`state, ball`motion, ball.body`position
      modifies GridSet(blocks), Bodies(GridSet(blocks))`visible
      ensures Valid()
      ensures var r := AfterPass(Setup(), old(View()), CollisionPass(Setup(), old(View()), f), f);
              if returned then View() == r else Spawn(Setup(), View(), f) == r
    {
      ghost var w := View();
      ghost var p := CollisionPass(Setup(), w, f);
      SpeedUpdate(f);
      var won := ResolveCollisions(f.kickScale);
      ghost var passed := w.(blocks := p.blocks, motion := p.motion, score := p.score);
      assert View() == passed && won == p.won;
      returned := AfterCollisions(f, won);
    }

    /** The end of a PLAYING frame: win at once if the collision loop destroyed the last block,
        otherwise move the ball. */
    method AfterCollisions(f: FrameInput, won: bool) returns (returned: bool)
      requires Valid() && InputInRange(f) && state == Playing
      modifies this`score, this`lives, this`state, ball`motion, ball.body`position
      ensures Valid()
      ensures var r := if won then old(View()).(score := old(score) + WinBonus(difficulty, f.elapsed, lives), state := GameState.Win)
                       else MoveBall(Setup(), old(View()), f);
              if returned then View() == r else Spawn(Setup(), View(), f) == r
    {
      if won {
        Win(f.elapsed);
        StructureKept();
        return true;
      }
      returned := MoveBallFrame(f);
    }

    /** ball.updateMotion: the motion rescaled to this frame's speed. */
    method SpeedUpdate(f: FrameInput)
      requires Valid()
      requires ScalesToSquaredLength(f.lengthScale, ball.motion, (ball.speed * f.delta) * (ball.speed * f.delta))
      modifies ball`motion
      ensures Valid() && Views(blocks) == old(Views(blocks))
      ensures ball.motion == old(ball.motion).Scale(f.lengthScale)
    {
      ball.UpdateMotion(f.delta, f.lengthScale);
      StructureKept();
    }

    /** ball.move, then the off-screen check: READY with a life and BALL_DIE_SCORE_DECREASE
        less, and gameOver when no life is left. Returns whether update returns at once. */
    method MoveBallFrame(f: FrameInput) returns (returned: bool)
      requires Valid() && InputInRange(f) && state == Playing
      modifies this`score, this`lives, this`state, ball`motion, ball.body`position
      ensures Valid()
      ensures var r := MoveBall(Setup(), old(View()), f);
              if returned then View() == r else Spawn(Setup(), View(), f) == r
    {
      ball.Move(stageWidth, stageHeight);
      StructureKept();
      returned := false;
      if !ball.OnScreen(stageWidth, stageHeight) {
        LoseBallFrame();
        returned := lives <= 0;
      }
    }

    /** The ball was lost: READY with a life and BALL_DIE_SCORE_DECREASE less, and gameOver
        when no life is left. */
    method LoseBallFrame()
      requires Valid()
      modifies this`score, this`lives, this`state
      ensures Valid() && Views(blocks) == old(Views(blocks)) && lives == old(lives) - 1
      ensures score == old(score) - BALL_DIE_SCORE_DECREASE - (if lives <= 0 then GAME_OVER_SCORE_DECREMENT else 0)
      ensures state == if lives <= 0 then GameState.GameOver else Ready
    {
      state := Ready;
      lives := lives - 1;
      score := score - BALL_DIE_SCORE_DECREASE;
      if lives <= 0 {
        GameOver();
      }
      StructureKept();
    }

    /** A change to one block of the grid, and to nothing else the invariant reads, that keeps
        that block valid keeps the invariant, and changes only that block's state. */
    twostate lemma OneBlockChanged(block: Block)
      requires old(Valid()) && block in GridSet(blocks)
      requires unchanged(this`blocks, this`gameObjects, this`ball, this`paddle, this`spawnRate)
      requires unchanged(GridSet(blocks) - {block}, Bodies(GridSet(blocks)) - {block.body})
      requires unchanged(block.body`position, block.body`width, block.body`height)
      requires unchanged(BodiesOfParts()`width, BodiesOfParts()`height, BodiesOfParts()`visible)
      requires block.Valid()
      ensures Valid() && Views(blocks) == old(Views(blocks))[block := block.View()]
    {
      forall b | b in GridSet(blocks) ensures b.Valid() && Views(blocks)[b] == old(Views(blocks))[block := block.View()][b] {
        if b != block {
          assert b.body != block.body;
        }
      }
      SameMap(Views(blocks), old(Views(blocks))[block := block.View()]);
    }

    /** A change that leaves the grid and its blocks alone leaves every block as it was. */
    twostate lemma GridKept()
      requires unchanged(this`blocks) && unchanged(GridSet(blocks), Bodies(GridSet(blocks)))
      ensures forall i, j :: 0 <= i < |blocks| && 0 <= j < |blocks[i]| ==>
                blocks[i][j].View() == old(blocks[i][j].View()) && (old(blocks[i][j].Valid()) ==> blocks[i][j].Valid())
    {
      forall i, j | 0 <= i < |blocks| && 0 <= j < |blocks[i]|
        ensures blocks[i][j].View() == old(blocks[i][j].View()) && (old(blocks[i][j].Valid()) ==> blocks[i][j].Valid())
      {
        assert blocks[i][j] in GridSet(blocks);
      }
    }

    /** A change that leaves the grid, the blocks, their bodies and the sizes of the ball and
        the paddle alone keeps the invariant and the state of every block. */
    twostate lemma StructureKept()
      requires old(Valid())
      requires unchanged(this`blocks, this`gameObjects, this`ball, this`paddle, this`spawnRate)
      requires unchanged(GridSet(blocks), Bodies(GridSet(blocks)))
      requires unchanged(BodiesOfParts()`width, BodiesOfParts()`height, BodiesOfParts()`visible)
      ensures Valid() && Views(blocks) == old(Views(blocks))
    {
    }

    /** The READY branch of update: the ball is pinned on top of the paddle, and a launch
        switches to PLAYING with heading (0, 1). */
    method ReadyBranch(launch: bool)
      requires Valid() && state == Ready
      modifies this`state, ball`motion, ball.body`position
      ensures Valid() && View() == ReadyFrame(old(View()), launch)
    {
      ball.body.SetPosition(paddle.body.GetX() + paddle.body.GetWidth() / 2.0,
                            paddle.body.GetY() + paddle.body.GetHeight() + ball.body.GetHeight() / 2.0);
      StructureKept();
      if launch {
        Launch();
      }
    }

    /** The launch from READY: PLAYING, heading straight up. */
    method Launch()
      requires Valid()
      modifies this`state, ball`motion
      ensures Valid() && Views(blocks) == old(Views(blocks))
      ensures state == Playing && ball.motion == Vector2(0.0, 1.0)
    {
      state := Playing;
      ball.InitHeading(Vector2(0.0, 1.0));
      StructureKept();
    }

    /** The spawn check at the end of update: a block is regenerated once spawnRate seconds
        have passed since the last spawn. */
    method SpawnCheck(f: FrameInput)
      requires Valid() && InputInRange(f)
      modifies GridSet(blocks), Bodies(GridSet(blocks))`visible
      ensures Valid() && View() == Spawn(Setup(), old(View()), f)
    {
      if f.sinceSpawn > spawnRate {
        GenerateRandomBlock(f.pick);
      }
    }

    /** The paddle's move at the start of update. */
    method PaddleFrame(f: FrameInput)
      requires Valid()
      modifies paddle.body`position
      ensures Valid() && View() == MovePaddle(Setup(), old(View()), f)
    {
      paddle.Update(f.delta, f.left, f.right, stageWidth);
      StructureKept();
    }

    /** update: one frame. In PLAYING the caller supplies the setLength factors for this frame's
        speed update and for a kick off the paddle at its moved position. */
    method Update(f: FrameInput)
      requires Valid() && InputInRange(f)
      requires state == Playing ==>
                 ScalesToSquaredLength(f.lengthScale, ball.motion, (ball.speed * f.delta) * (ball.speed * f.delta))
      requires state == Playing ==>
                 ScalesToSquaredLength(f.kickScale,
                                       KickTrajectory(ball.body.position,
                                                      NextPosition(paddle.body.position, PADDLE_WIDTH, f.delta,
                                                                   f.left, f.right, stageWidth),
                                                      PADDLE_WIDTH),
                                       ball.motion.Scale(f.lengthScale).Length2())
      modifies this`score, this`lives, this`state, ball`motion, ball.body`position, paddle.body`position
      modifies GridSet(blocks), Bodies(GridSet(blocks))`visible
      ensures Valid() && View() == Frame(Setup(), old(View()), f)
    {
      ghost var w := View();
      PaddleFrame(f);
      ghost var moved := View();
      if state == Playing {
        var returned := PlayingFrame(f);
        if returned {
          return;
        }
        assert Frame(Setup(), w, f) == AfterPass(Setup(), moved, CollisionPass(Setup(), moved, f), f);
      } else if state == Ready {
        ReadyBranch(f.launch);
        assert Frame(Setup(), w, f) == Spawn(Setup(), ReadyFrame(moved, f.launch), f);
      } else {
        assert Frame(Setup(), w, f) == Spawn(Setup(), moved, f);
      }
      SpawnCheck(f);
    }
  }

  /** A block as generateBlocks creates it. */
  function InitialBlock(stageHeight: real, numRows: int, row: int, column: int): BlockView {
    var health := StartingHealth(numRows, row);
    BlockView(BlockPosition(stageHeight, row, column), health, health - 1, true)
  }

  /** The loop of getStartingHealthByRow returns at the first band the row falls in. */
  lemma InFirstBand(numRows: int, row: int, i: int)
    requires 1 <= i <= MAX_BLOCK_HEALTH
    requires row < RowsPerValue(numRows) * i && (i > 1 ==> row >= RowsPerValue(numRows) * (i - 1))
    ensures MAX_BLOCK_HEALTH - i + 1 == StartingHealth(numRows, row)
  {
    var r := RowsPerValue(numRows);
    if i > 1 {
      IntMultiplyWeak(1, i - 1, r);
      if r <= 0 {
        IntMultiplyWeak(i - 1, i, -r);
        assert false;
      }
      DivisionBand(row, r, i - 1);
    } else if 0 <= row {
      DivisionBand(row, r, 0);
    }
  }

  /** Past the last band, getStartingHealthByRow falls back to MAX_BLOCK_HEALTH. */
  lemma PastTheBands(numRows: int, row: int)
    requires row >= RowsPerValue(numRows) * MAX_BLOCK_HEALTH
    ensures StartingHealth(numRows, row) == MAX_BLOCK_HEALTH
  {
  }

  /** A row between q and q + 1 bands down lies in band q. */
  lemma DivisionBand(row: int, d: int, q: int)
    requires d > 0 && q * d <= row < (q + 1) * d
    ensures row / d == q
  {
    var k := row / d;
    if k < q {
      IntMultiplyWeak(k + 1, q, d);
      assert false;
    } else if k > q {
      IntMultiplyWeak(q + 1, k, d);
      assert false;
    }
  }

  /** No two places of the grid share a body. */
  predicate DistinctBodies(grid: seq<seq<Block>>) {
    forall i1, j1, i2, j2 ::
      0 <= i1 < |grid| && 0 <= j1 < |grid[i1]| && 0 <= i2 < |grid| && 0 <= j2 < |grid[i2]| && (i1 != i2 || j1 != j2) ==>
        grid[i1][j1].body != grid[i2][j2].body
  }

  lemma AppendRowKeepsDistinct(grid: seq<seq<Block>>, row: seq<Block>)
    requires DistinctBodies(grid)
    requires forall c1, c2 :: 0 <= c1 < c2 < |row| ==> row[c1].body != row[c2].body
    requires forall c, r, c' :: 0 <= c < |row| && 0 <= r < |grid| && 0 <= c' < |grid[r]| ==>
               row[c].body != grid[r][c'].body
    ensures DistinctBodies(grid + [row])
  {
    var g: seq<seq<Block>> := grid + [row];
    forall i1, j1, i2, j2 |
      0 <= i1 < |g| && 0 <= j1 < |g[i1]| && 0 <= i2 < |g| && 0 <= j2 < |g[i2]| && (i1 != i2 || j1 != j2)
      ensures g[i1][j1].body != g[i2][j2].body
    {
      if i1 < |grid| && i2 < |grid| {
        assert g[i1][j1] == grid[i1][j1] && g[i2][j2] == grid[i2][j2];
      } else if i1 < |grid| {
        assert g[i1][j1] == grid[i1][j1] && g[i2][j2] == row[j2];
      } else if i2 < |grid| {
        assert g[i1][j1] == row[j1] && g[i2][j2] == grid[i2][j2];
      } else if j1 < j2 {
        assert g[i1][j1] == row[j1] && g[i2][j2] == row[j2];
      } else {
        assert g[i1][j1] == row[j1] && g[i2][j2] == row[j2];
      }
    }
  }

  /** The collision loop's step on a block the ball touches: bounce, hit, and score. */
  lemma StepOnTouchedBlock(k: Contact, s: PassState, b: Block)
    requires !s.won && b in s.blocks && TouchesBlock(k, s.motion, s.blocks[b])
    ensures var v := s.blocks[b];
            var blocks := s.blocks[b := Hit(v).0];
            Step(k, s, BlockEntity(b))
              == PassState(blocks, BlockBounce(k.ball, s.motion, BALL_RADIUS, v.position, BLOCK_WIDTH, BLOCK_HEIGHT),
                           s.score + (if Hit(v).1 then BLOCK_DESTROY_SCORE_INCREASE else BLOCK_HIT_SCORE_INCREASE),
                           Hit(v).1 && Cleared(blocks))
  {
  }

  /** Maps with the same keys and the same value at each key are equal. */
  lemma SameMap(m: map<Block, BlockView>, n: map<Block, BlockView>)
    requires m.Keys == n.Keys && forall b :: b in m ==> m[b] == n[b]
    ensures m == n
  {
  }

  /** What an element of gameObjects can be: a block of the grid, the ball or the paddle. */
  lemma EntityKinds(grid: seq<seq<Block>>, ball: Ball, paddle: Paddle, e: Entity)
    requires e in GridEntities(grid) + [BallEntity(ball), PaddleEntity(paddle)]
    ensures e.BlockEntity? ==> e.block in GridSet(grid)
    ensures e.BallEntity? ==> e.ball == ball
    ensures e.PaddleEntity? ==> e.paddle == paddle
  {
    GridEntitiesAreGridBlocks(grid);
  }

  /** Distinct places with distinct bodies make distinct blocks with distinct bodies. */
  lemma DistinctBodiesMeansDistinctBlocks(grid: seq<seq<Block>>)
    requires DistinctBodies(grid)
    ensures forall b1, b2 :: b1 in GridSet(grid) && b2 in GridSet(grid) && b1 != b2 ==> b1.body != b2.body
  {
  }

  /** A grid whose every cell holds a valid block is AllValid. */
  lemma CellsValid(grid: seq<seq<Block>>)
    requires forall i, j :: 0 <= i < |grid| && 0 <= j < |grid[i]| ==> grid[i][j].Valid()
    ensures AllValid(grid)
  {
  }

  /** Appending a row to the grid appends its blocks, in order. */
  lemma GridGrows(grid: seq<seq<Block>>, row: seq<Block>)
    ensures GridEntities(grid + [row]) == GridEntities(grid) + RowEntities(row)
    ensures GridSet(grid + [row]) == GridSet(grid) + set b | b in row
  {
    assert (grid + [row])[..|grid|] == grid;
    forall b | b in row ensures b in GridSet(grid + [row]) {
      var j :| 0 <= j < |row| && row[j] == b;
      assert (grid + [row])[|grid|][j] == b;
    }
    forall b | b in GridSet(grid) ensures b in GridSet(grid + [row]) {
      var i, j :| 0 <= i < |grid| && 0 <= j < |grid[i]| && grid[i][j] == b;
      assert (grid + [row])[i][j] == b;
    }
  }
}
