/** The rules of one game, as functions on values: the size of the block grid and the starting
    health of its rows, the collision pass over the game objects, one frame of play, block
    regeneration and the win bonus. The GameManager class is proved against these functions,
    and the lemmas here state what the rules guarantee. */
module GameRules {
  import opened Vectors
  import opened Constants
  import opened Util
  import opened Blocks
  import opened Paddles
  import opened Balls

  datatype Difficulty = Easy | Medium | Hard

  datatype GameState = Playing | Ready | GameOver | Win

  function BallSpeed(d: Difficulty): real {
    match d
    case Easy => BALL_SPEED_EASY
    case Medium => BALL_SPEED_MEDIUM
    case Hard => BALL_SPEED_HARD
  }

  /** Seconds between two block regenerations. */
  function SpawnRate(d: Difficulty): real {
    match d
    case Easy => BLOCK_SPAWN_RATE_EASY
    case Medium => BLOCK_SPAWN_RATE_MEDIUM
    case Hard => BLOCK_SPAWN_RATE_HARD
  }

  function DifficultyBonus(d: Difficulty): real {
    match d
    case Easy => EASY_WIN_BONUS
    case Medium => MEDIUM_WIN_BONUS
    case Hard => HARD_WIN_BONUS
  }

  /** Java's (int) cast of a finite value: truncation toward zero. */
  function Trunc(x: real): (n: int)
    ensures 0.0 <= x ==> 0 <= n && n as real <= x < n as real + 1.0
    ensures x < 0.0 ==> n <= 0 && n as real - 1.0 < x <= n as real
  {
    if x >= 0.0 then x.Floor else -((-x).Floor)
  }

  /** Math.round: the nearest integer, halves rounded up. */
  function Round(x: real): (n: int)
    ensures n as real - 0.5 <= x < n as real + 0.5
  {
    (x + 0.5).Floor
  }

  // ---------------------------------------------------------------------------------------
  // The block grid

  /** As many blocks as fit side by side across the stage. */
  function NumColumns(stageWidth: real): int {
    Trunc(stageWidth / BLOCK_WIDTH)
  }

  /** As many rows as fit in the top BLOCK_AREA_SCREEN_RATIO of the stage. */
  function NumRows(stageHeight: real): int {
    Trunc(BLOCK_AREA_SCREEN_RATIO * stageHeight / BLOCK_HEIGHT)
  }

  /** The grid is as large as fits: one more column or row would not. */
  lemma GridIsLargestThatFits(stageWidth: real, stageHeight: real)
    requires stageWidth >= 0.0 && stageHeight >= 0.0
    ensures var columns := NumColumns(stageWidth);
            0 <= columns && columns as real * BLOCK_WIDTH <= stageWidth < (columns + 1) as real * BLOCK_WIDTH
    ensures var rows := NumRows(stageHeight);
            && 0 <= rows
            && rows as real * BLOCK_HEIGHT <= BLOCK_AREA_SCREEN_RATIO * stageHeight
            && BLOCK_AREA_SCREEN_RATIO * stageHeight < (rows + 1) as real * BLOCK_HEIGHT
  {
  }

  /** Where generateBlock puts the block of a row and a column: row 0 along the top edge. */
  function BlockPosition(stageHeight: real, row: int, column: int): Vector2 {
    Vector2(column as real * BLOCK_WIDTH, stageHeight - (row + 1) as real * BLOCK_HEIGHT)
  }

  /** Every block of the grid lies inside the block area at the top of the stage. */
  lemma GridBlockInsideBlockArea(stageWidth: real, stageHeight: real, row: int, column: int)
    requires stageWidth >= 0.0 && stageHeight >= 0.0
    requires 0 <= row < NumRows(stageHeight) && 0 <= column < NumColumns(stageWidth)
    ensures var p := BlockPosition(stageHeight, row, column);
            && 0.0 <= p.x && p.x + BLOCK_WIDTH <= stageWidth
            && stageHeight - BLOCK_AREA_SCREEN_RATIO * stageHeight <= p.y && p.y + BLOCK_HEIGHT <= stageHeight
  {
    GridIsLargestThatFits(stageWidth, stageHeight);
    assert (column + 1) as real * BLOCK_WIDTH <= NumColumns(stageWidth) as real * BLOCK_WIDTH;
    assert (row + 1) as real * BLOCK_HEIGHT <= NumRows(stageHeight) as real * BLOCK_HEIGHT;
  }

  /** Two different cells of the grid hold blocks whose interiors do not overlap. */
  lemma GridBlocksDoNotOverlap(stageHeight: real, row1: int, column1: int, row2: int, column2: int)
    requires (row1, column1) != (row2, column2)
    ensures var p := BlockPosition(stageHeight, row1, column1);
            var q := BlockPosition(stageHeight, row2, column2);
            Abs(p.x - q.x) >= BLOCK_WIDTH || Abs(p.y - q.y) >= BLOCK_HEIGHT
  {
    if column1 != column2 {
      assert Abs((column1 - column2) as real) >= 1.0;
      assert Abs(column1 as real * BLOCK_WIDTH - column2 as real * BLOCK_WIDTH)
          == Abs((column1 - column2) as real) * BLOCK_WIDTH;
    } else {
      assert Abs((row1 - row2) as real) >= 1.0;
      assert Abs((row1 + 1) as real * BLOCK_HEIGHT - (row2 + 1) as real * BLOCK_HEIGHT)
          == Abs((row1 - row2) as real) * BLOCK_HEIGHT;
    }
  }

  /** The number of rows in each health band. */
  function RowsPerValue(numRows: int): int {
    Round(numRows as real / MAX_BLOCK_HEALTH as real)
  }

  /** The starting health of a row, in closed form: bands of RowsPerValue rows, from
      MAX_BLOCK_HEALTH at the top down to 1. Rows past the last band, and every row when the
      bands are empty, get MAX_BLOCK_HEALTH. */
  function StartingHealth(numRows: int, row: int): (h: int)
    ensures 1 <= h <= MAX_BLOCK_HEALTH
  {
    var rowsPerValue := RowsPerValue(numRows);
    if 0 <= row < MAX_BLOCK_HEALTH * rowsPerValue then
      BandFits(row, rowsPerValue);
      MAX_BLOCK_HEALTH - row / rowsPerValue
    else MAX_BLOCK_HEALTH
  }

  lemma BandFits(row: int, rowsPerValue: int)
    requires 0 <= row < MAX_BLOCK_HEALTH * rowsPerValue
    ensures rowsPerValue > 0 && 0 <= row / rowsPerValue < MAX_BLOCK_HEALTH
  {
    var k := row / rowsPerValue;
    assert k * rowsPerValue <= row;
  }

  /** Within the bands, health never rises from one row to the next one down, and the top row
      starts at MAX_BLOCK_HEALTH. */
  lemma StartingHealthFallsByBand(numRows: int, row1: int, row2: int)
    requires 0 <= row1 <= row2 < MAX_BLOCK_HEALTH * RowsPerValue(numRows)
    ensures StartingHealth(numRows, row2) <= StartingHealth(numRows, row1)
    ensures StartingHealth(numRows, 0) == MAX_BLOCK_HEALTH
  {
    var r := RowsPerValue(numRows);
    BandFits(row2, r);
    DivisionMonotone(row1, row2, r);
  }

  lemma DivisionMonotone(a: int, b: int, d: int)
    requires 0 <= a <= b && d > 0
    ensures a / d <= b / d
  {
    if a / d > b / d {
      IntMultiplyWeak(b / d + 1, a / d, d);
      assert false;
    }
  }

  lemma IntMultiplyWeak(x: int, y: int, d: int)
    requires x <= y && d >= 0
    ensures x * d <= y * d
  {
    assert y * d - x * d == (y - x) * d;
  }

  /** The blocks of a grid. */
  function GridSet(grid: seq<seq<Block>>): set<Block> {
    set i, j | 0 <= i < |grid| && 0 <= j < |grid[i]| :: grid[i][j]
  }

  /** The game objects of a row, left to right. */
  function RowEntities(row: seq<Block>): seq<Entity> {
    seq(|row|, k requires 0 <= k < |row| => BlockEntity(row[k]))
  }

  /** The game objects generateBlocks adds: the grid row by row. */
  function GridEntities(grid: seq<seq<Block>>): seq<Entity> {
    if |grid| == 0 then [] else GridEntities(grid[..|grid| - 1]) + RowEntities(grid[|grid| - 1])
  }

  /** The grid's game objects are exactly its blocks. */
  lemma {:induction false} GridEntitiesAreGridBlocks(grid: seq<seq<Block>>)
    ensures forall k :: 0 <= k < |GridEntities(grid)| ==>
                          GridEntities(grid)[k].BlockEntity? && GridEntities(grid)[k].block in GridSet(grid)
    ensures forall b :: b in GridSet(grid) ==> BlockEntity(b) in GridEntities(grid)
  {
    if |grid| > 0 {
      var last := |grid| - 1;
      GridEntitiesAreGridBlocks(grid[..last]);
      var prefix := GridEntities(grid[..last]);
      assert GridEntities(grid) == prefix + RowEntities(grid[last]);
      forall k | 0 <= k < |GridEntities(grid)|
        ensures GridEntities(grid)[k].BlockEntity? && GridEntities(grid)[k].block in GridSet(grid)
      {
        if k < |prefix| {
          var i, j :| 0 <= i < last && 0 <= j < |grid[..last][i]| && prefix[k].block == grid[..last][i][j];
          assert prefix[k].block == grid[i][j];
        } else {
          assert GridEntities(grid)[k].block == grid[last][k - |prefix|];
        }
      }
      forall b | b in GridSet(grid)
        ensures BlockEntity(b) in GridEntities(grid)
      {
        var i, j :| 0 <= i < |grid| && 0 <= j < |grid[i]| && b == grid[i][j];
        if i < last {
          assert b in GridSet(grid[..last]) by { assert grid[..last][i][j] == b; }
        } else {
          assert RowEntities(grid[last])[j] == BlockEntity(b);
        }
      }
    }
  }

  // ---------------------------------------------------------------------------------------
  // The collision pass

  /** What the collision pass carries from one game object to the next: the blocks, the ball's
      motion, the score, and whether the last block has just been destroyed, which ends it. */
  datatype PassState = PassState(blocks: map<Block, BlockView>, motion: Vector2, score: int, won: bool)

  /** What stays fixed during the pass: the ball does not move until the pass is over, the
      paddle has already moved, and the kick's setLength factor. */
  datatype Contact = Contact(ball: Vector2, paddle: Vector2, kickScale: real)

  /** No block is left: isGameWon. */
  predicate Cleared(blocks: map<Block, BlockView>) {
    forall b :: b in blocks ==> !blocks[b].visible
  }

  predicate AllHealthConsistent(blocks: map<Block, BlockView>) {
    forall b :: b in blocks ==> HealthConsistent(blocks[b])
  }

  /** Whether the ball, after its current motion, meets the paddle. */
  predicate TouchesPaddle(k: Contact, motion: Vector2) {
    var c := k.ball.Add(motion);
    RectIntersectsCircle(c.x, c.y, BALL_RADIUS, k.paddle.x, k.paddle.y, PADDLE_WIDTH, PADDLE_HEIGHT)
  }

  /** Whether the ball, after its current motion, meets a visible block. */
  predicate TouchesBlock(k: Contact, motion: Vector2, v: BlockView) {
    var c := k.ball.Add(motion);
    v.visible && RectIntersectsCircle(c.x, c.y, BALL_RADIUS, v.position.x, v.position.y, BLOCK_WIDTH, BLOCK_HEIGHT)
  }

  /** One iteration of the collision loop of GameManager.update. */
  function Step(k: Contact, s: PassState, e: Entity): PassState {
    if s.won then s
    else match e
      case BallEntity(_) => s
      case PaddleEntity(_) =>
        if TouchesPaddle(k, s.motion)
        then s.(motion := KickTrajectory(k.ball, k.paddle, PADDLE_WIDTH).Scale(k.kickScale))
        else s
      case BlockEntity(b) =>
        if b in s.blocks && TouchesBlock(k, s.motion, s.blocks[b]) then
          var v := s.blocks[b];
          var motion := BlockBounce(k.ball, s.motion, BALL_RADIUS, v.position, BLOCK_WIDTH, BLOCK_HEIGHT);
          var blocks := s.blocks[b := Hit(v).0];
          if Hit(v).1 then PassState(blocks, motion, s.score + BLOCK_DESTROY_SCORE_INCREASE, Cleared(blocks))
          else PassState(blocks, motion, s.score + BLOCK_HIT_SCORE_INCREASE, false)
        else s
  }

  /** The collision loop over a list of game objects, in list order. */
  function Pass(k: Contact, s: PassState, entities: seq<Entity>): PassState {
    if |entities| == 0 then s else Step(k, Pass(k, s, entities[..|entities| - 1]), entities[|entities| - 1])
  }

  /** What the pass guarantees: it keeps the set of blocks and the block invariant, leaves
      destroyed blocks alone, never raises a block's health or lowers the score, raises the
      score by at most BLOCK_DESTROY_SCORE_INCREASE per object, and ends in a win only when no
      block is left. */
  lemma {:induction false} PassGuarantees(k: Contact, s: PassState, entities: seq<Entity>)
    requires AllHealthConsistent(s.blocks) && !s.won
    ensures var r := Pass(k, s, entities);
            && r.blocks.Keys == s.blocks.Keys
            && AllHealthConsistent(r.blocks)
            && (forall b :: b in s.blocks && !s.blocks[b].visible ==> r.blocks[b] == s.blocks[b])
            && (forall b :: b in s.blocks ==> r.blocks[b].health <= s.blocks[b].health)
            && s.score <= r.score <= s.score + BLOCK_DESTROY_SCORE_INCREASE * |entities|
            && (r.won ==> Cleared(r.blocks))
  {
    if |entities| > 0 {
      var prefix := entities[..|entities| - 1];
      PassGuarantees(k, s, prefix);
      var p := Pass(k, s, prefix);
      var e := entities[|entities| - 1];
      if !p.won && e.BlockEntity? && e.block in p.blocks && TouchesBlock(k, p.motion, p.blocks[e.block]) {
        HitKeepsHealthConsistent(p.blocks[e.block]);
      }
    }
  }

  /** Once the last block is gone the rest of the pass does nothing: update returns. */
  lemma {:induction false} PassStopsAtWin(k: Contact, s: PassState, entities: seq<Entity>, i: nat)
    requires i <= |entities| && Pass(k, s, entities[..i]).won
    ensures Pass(k, s, entities) == Pass(k, s, entities[..i])
  {
    if i < |entities| {
      assert entities[..|entities| - 1][..i] == entities[..i];
      PassStopsAtWin(k, s, entities[..|entities| - 1], i);
    } else {
      assert entities[..i] == entities;
    }
  }

  /** Collisions keep the ball's speed: bounces off blocks only flip components, and the kick
      off the paddle, given the setLength factor for the speed at the start of the pass, keeps
      it too (unless the ball sits exactly on the trajectory origin, where the kick has no
      direction). */
  lemma {:induction false} PassKeepsSpeed(k: Contact, s: PassState, entities: seq<Entity>)
    requires ScalesToSquaredLength(k.kickScale, KickTrajectory(k.ball, k.paddle, PADDLE_WIDTH), s.motion.Length2())
    requires KickTrajectory(k.ball, k.paddle, PADDLE_WIDTH).Length2() != 0.0
    ensures Pass(k, s, entities).motion.Length2() == s.motion.Length2()
  {
    if |entities| > 0 {
      var prefix := entities[..|entities| - 1];
      PassKeepsSpeed(k, s, prefix);
      var p := Pass(k, s, prefix);
      var e := entities[|entities| - 1];
      if !p.won {
        match e
        case BallEntity(_) =>
        case PaddleEntity(_) =>
          ScaledToLength(KickTrajectory(k.ball, k.paddle, PADDLE_WIDTH), k.kickScale, s.motion.Length2());
        case BlockEntity(b) =>
          if b in p.blocks && TouchesBlock(k, p.motion, p.blocks[b]) {
            var v := p.blocks[b];
            ReflectionKeepsLength(p.motion, BlockBounce(k.ball, p.motion, BALL_RADIUS, v.position, BLOCK_WIDTH, BLOCK_HEIGHT));
          }
      }
    }
  }

  /** Objects the pass never reaches leave their blocks as they were. */
  lemma {:induction false} PassTouchesOnlyListedBlocks(k: Contact, s: PassState, entities: seq<Entity>, b: Block)
    requires b in s.blocks && BlockEntity(b) !in entities
    ensures b in Pass(k, s, entities).blocks ==> Pass(k, s, entities).blocks[b] == s.blocks[b]
    ensures b in Pass(k, s, entities).blocks
  {
    if |entities| > 0 {
      var prefix := entities[..|entities| - 1];
      assert forall e :: e in prefix ==> e in entities;
      PassTouchesOnlyListedBlocks(k, s, prefix, b);
    }
  }

  // ---------------------------------------------------------------------------------------
  // Regenerating a block

  /** The open (destroyed) cell of a row and a column. */
  predicate IsOpen(grid: seq<seq<Block>>, blocks: map<Block, BlockView>, row: int, column: int)
    requires 0 <= row < |grid| && 0 <= column < |grid[row]|
  {
    grid[row][column] in blocks && !blocks[grid[row][column]].visible
  }

  /** The open cells among the first `columns` of a row, left to right. */
  function OpenInRow(grid: seq<seq<Block>>, blocks: map<Block, BlockView>, row: int, columns: int): seq<(int, int)>
    requires 0 <= row < |grid| && 0 <= columns <= |grid[row]|
  {
    if columns == 0 then []
    else OpenInRow(grid, blocks, row, columns - 1) + (if IsOpen(grid, blocks, row, columns - 1) then [(row, columns - 1)] else [])
  }

  /** The open cells of the first `rows` rows, row by row. */
  function OpenInRows(grid: seq<seq<Block>>, blocks: map<Block, BlockView>, rows: int): seq<(int, int)>
    requires 0 <= rows <= |grid|
  {
    if rows == 0 then [] else OpenInRows(grid, blocks, rows - 1) + OpenInRow(grid, blocks, rows - 1, |grid[rows - 1]|)
  }

  /** The openPositions list of generateRandomBlock. */
  function OpenPositions(grid: seq<seq<Block>>, blocks: map<Block, BlockView>): seq<(int, int)> {
    OpenInRows(grid, blocks, |grid|)
  }

  predicate InGrid(grid: seq<seq<Block>>, p: (int, int)) {
    0 <= p.0 < |grid| && 0 <= p.1 < |grid[p.0]|
  }

  lemma {:induction false} OpenInRowExact(grid: seq<seq<Block>>, blocks: map<Block, BlockView>, row: int, columns: int)
    requires 0 <= row < |grid| && 0 <= columns <= |grid[row]|
    ensures forall p :: p in OpenInRow(grid, blocks, row, columns) <==>
                          p.0 == row && 0 <= p.1 < columns && IsOpen(grid, blocks, row, p.1)
  {
    if columns > 0 {
      OpenInRowExact(grid, blocks, row, columns - 1);
    }
  }

  lemma {:induction false} OpenInRowsExact(grid: seq<seq<Block>>, blocks: map<Block, BlockView>, rows: int)
    requires 0 <= rows <= |grid|
    ensures forall p :: p in OpenInRows(grid, blocks, rows) <==>
                          InGrid(grid, p) && p.0 < rows && IsOpen(grid, blocks, p.0, p.1)
  {
    if rows > 0 {
      OpenInRowsExact(grid, blocks, rows - 1);
      OpenInRowExact(grid, blocks, rows - 1, |grid[rows - 1]|);
    }
  }

  /** openPositions lists exactly the cells whose block is destroyed. */
  lemma OpenPositionsExact(grid: seq<seq<Block>>, blocks: map<Block, BlockView>)
    ensures forall p :: p in OpenPositions(grid, blocks) <==> InGrid(grid, p) && IsOpen(grid, blocks, p.0, p.1)
  {
    OpenInRowsExact(grid, blocks, |grid|);
  }

  /** The random choice: `pick`, uniform in [0, 1), scaled to an index below n. */
  function PickIndex(pick: real, n: int): (i: int)
    requires 0.0 <= pick < 1.0 && n > 0
    ensures 0 <= i < n
  {
    PickBelowCount(pick, n);
    (pick * n as real).Floor
  }

  lemma PickBelowCount(pick: real, n: int)
    requires 0.0 <= pick < 1.0 && n > 0
    ensures 0.0 <= pick * n as real < n as real
  {
    MultiplyStrict(pick, 1.0, n as real);
    MultiplyWeak(0.0, pick, n as real);
  }

  /** generateRandomBlock on values: revive, with health 1, the block of a chosen open cell. */
  function Regenerate(grid: seq<seq<Block>>, blocks: map<Block, BlockView>, pick: real): map<Block, BlockView>
    requires 0.0 <= pick < 1.0
  {
    var open := OpenPositions(grid, blocks);
    if |open| == 0 then blocks
    else
      OpenPositionsExact(grid, blocks);
      var p := open[PickIndex(pick, |open|)];
      var b := grid[p.0][p.1];
      blocks[b := Revive(blocks[b], 1)]
  }

  /** Every grid block has a state. */
  predicate GridInMap(grid: seq<seq<Block>>, blocks: map<Block, BlockView>) {
    forall i, j :: 0 <= i < |grid| && 0 <= j < |grid[i]| ==> grid[i][j] in blocks
  }

  /** Regeneration leaves the blocks alone when none is destroyed; otherwise it revives exactly
      one destroyed grid block, with health 1, and changes nothing else. */
  lemma RegenerateRevivesOne(grid: seq<seq<Block>>, blocks: map<Block, BlockView>, pick: real)
    requires 0.0 <= pick < 1.0 && GridInMap(grid, blocks)
    ensures var r := Regenerate(grid, blocks, pick);
            && r.Keys == blocks.Keys
            && ((forall i, j :: 0 <= i < |grid| && 0 <= j < |grid[i]| ==> blocks[grid[i][j]].visible) ==> r == blocks)
            && ((exists i, j :: 0 <= i < |grid| && 0 <= j < |grid[i]| && !blocks[grid[i][j]].visible) ==>
                  exists i, j :: && 0 <= i < |grid| && 0 <= j < |grid[i]|
                                 && !blocks[grid[i][j]].visible
                                 && r == blocks[grid[i][j] := Revive(blocks[grid[i][j]], 1)])
  {
    OpenPositionsExact(grid, blocks);
    var open := OpenPositions(grid, blocks);
    if exists i, j :: 0 <= i < |grid| && 0 <= j < |grid[i]| && !blocks[grid[i][j]].visible {
      var i, j :| 0 <= i < |grid| && 0 <= j < |grid[i]| && !blocks[grid[i][j]].visible;
      assert (i, j) in open;
    }
  }

  // ---------------------------------------------------------------------------------------
  // One frame

  /** The whole state of a game, as update changes it. */
  datatype World = World(blocks: map<Block, BlockView>, paddle: Vector2, ball: Vector2, motion: Vector2,
                         score: int, lives: int, state: GameState)

  /** What update reads but never changes: the block grid, the game objects in list order, the
      stage and the difficulty. */
  datatype Config = Config(grid: seq<seq<Block>>, entities: seq<Entity>, stageWidth: real, stageHeight: real,
                           difficulty: Difficulty)

  /** What a frame depends on besides the state. Key presses; the setLength factors for the
      speed update and the paddle kick; seconds since the game started and since the last
      spawn; and the random pick of a cell to regenerate. */
  datatype FrameInput = FrameInput(delta: real, left: bool, right: bool, launch: bool,
                                   lengthScale: real, kickScale: real,
                                   elapsed: real, sinceSpawn: real, pick: real)

  predicate InputInRange(f: FrameInput) {
    f.elapsed > 0.0 && 0.0 <= f.pick < 1.0
  }

  /** calculateWinBonus: a time bonus that grows the faster the game was won, the
      difficulty's bonus, and a bonus per remaining life, truncated to an int. */
  function WinBonus(d: Difficulty, elapsed: real, lives: int): int
    requires elapsed > 0.0
  {
    Trunc(TARGET_GAME_TIME / elapsed * TIME_SCORE_BONUS_FACTOR + DifficultyBonus(d) + lives as real * REMAINING_LIVES_BONUS)
  }

  /** The bonus is at least the difficulty bonus plus the lives bonus, so always positive. */
  lemma WinBonusAtLeastFixedPart(d: Difficulty, elapsed: real, lives: int)
    requires elapsed > 0.0 && lives >= 0
    ensures WinBonus(d, elapsed, lives) as real >= DifficultyBonus(d) + lives as real * REMAINING_LIVES_BONUS
    ensures WinBonus(d, elapsed, lives) > 0
  {
    var m := (match d case Easy => 500 case Medium => 1000 case Hard => 2000) + 200 * lives;
    var fixedPart := DifficultyBonus(d) + lives as real * REMAINING_LIVES_BONUS;
    assert fixedPart == m as real;
    QuotientPositive(TARGET_GAME_TIME, elapsed);
    var timePart := TARGET_GAME_TIME / elapsed * TIME_SCORE_BONUS_FACTOR;
    assert timePart > 0.0;
    TruncAtLeast(timePart + fixedPart, m);
  }

  lemma TruncAtLeast(x: real, m: int)
    requires 0 <= m && m as real <= x
    ensures Trunc(x) >= m
  {
  }

  /** Winning sooner never earns a smaller bonus. */
  lemma WinBonusRewardsSpeed(d: Difficulty, elapsed: real, sooner: real, lives: int)
    requires 0.0 < sooner <= elapsed && lives >= 0
    ensures WinBonus(d, sooner, lives) >= WinBonus(d, elapsed, lives)
  {
    var fixedPart := DifficultyBonus(d) + lives as real * REMAINING_LIVES_BONUS;
    QuotientPositive(TARGET_GAME_TIME, elapsed);
    QuotientAntitone(TARGET_GAME_TIME, sooner, elapsed);
    var late := TARGET_GAME_TIME / elapsed * TIME_SCORE_BONUS_FACTOR;
    var early := TARGET_GAME_TIME / sooner * TIME_SCORE_BONUS_FACTOR;
    TruncMonotone(late + fixedPart, early + fixedPart);
  }

  lemma QuotientPositive(n: real, a: real)
    requires n > 0.0 && a > 0.0
    ensures n / a > 0.0
  {
  }

  /** Dividing by more gives less. */
  lemma QuotientAntitone(n: real, a: real, b: real)
    requires n > 0.0 && 0.0 < a <= b
    ensures n / b <= n / a
  {
    var qa, qb := n / a, n / b;
    assert qa * a == n && qb * b == n;
    if qa < qb {
      MultiplyStrict(qa, qb, a);
      MultiplyWeak(a, b, qb);
      assert false;
    }
  }

  lemma MultiplyStrict(x: real, y: real, a: real)
    requires x < y && a > 0.0
    ensures x * a < y * a
  {
    assert y * a - x * a == (y - x) * a;
  }

  lemma MultiplyWeak(x: real, y: real, a: real)
    requires x <= y && a >= 0.0
    ensures x * a <= y * a
  {
    assert y * a - x * a == (y - x) * a;
  }

  lemma TruncMonotone(x: real, y: real)
    requires 0.0 <= x <= y
    ensures Trunc(x) <= Trunc(y)
  {
  }

  /** Where the ball rests before launch: centred on top of the paddle. */
  function RestingPosition(paddle: Vector2): Vector2 {
    Vector2(paddle.x + PADDLE_WIDTH / 2.0, paddle.y + PADDLE_HEIGHT + 2.0 * BALL_RADIUS / 2.0)
  }

  /** The spawn check at the end of update, which runs whatever the state. */
  function Spawn(c: Config, w: World, f: FrameInput): World
    requires InputInRange(f)
  {
    if f.sinceSpawn > SpawnRate(c.difficulty) then w.(blocks := Regenerate(c.grid, w.blocks, f.pick)) else w
  }

  /** The READY branch: the ball rests on the paddle, and a launch sends it straight up. */
  function ReadyFrame(w: World, launch: bool): World {
    var resting := w.(ball := RestingPosition(w.paddle));
    if launch then resting.(state := Playing, motion := Vector2(0.0, 1.0)) else resting
  }

  /** Where the collision pass starts: the motion rescaled to this frame's speed. */
  function PassStart(w: World, f: FrameInput): PassState {
    PassState(w.blocks, w.motion.Scale(f.lengthScale), w.score, false)
  }

  function PassContact(w: World, f: FrameInput): Contact {
    Contact(w.ball, w.paddle, f.kickScale)
  }

  /** The collision loop of a PLAYING frame, after the paddle has moved. */
  function CollisionPass(c: Config, w: World, f: FrameInput): PassState {
    Pass(PassContact(w, f), PassStart(w, f), c.entities)
  }

  /** The ball was lost: back to READY with one life and BALL_DIE_SCORE_DECREASE less, and the
      game is over, with a further GAME_OVER_SCORE_DECREMENT off, once no life is left. */
  function LoseBall(c: Config, w: World, f: FrameInput): World
    requires InputInRange(f)
  {
    var lost := w.(state := Ready, lives := w.lives - 1, score := w.score - BALL_DIE_SCORE_DECREASE);
    if lost.lives <= 0 then lost.(score := lost.score - GAME_OVER_SCORE_DECREMENT, state := GameOver)
    else Spawn(c, lost, f)
  }

  /** Ball.move, then the off-screen check. */
  function MoveBall(c: Config, w: World, f: FrameInput): World
    requires InputInRange(f)
  {
    var bounced := Bounce(w.ball, w.motion, BALL_RADIUS, c.stageWidth, c.stageHeight);
    var moved := w.(motion := bounced, ball := w.ball.Add(bounced));
    if CircleOnScreen(moved.ball, BALL_RADIUS, c.stageWidth, c.stageHeight) then Spawn(c, moved, f)
    else LoseBall(c, moved, f)
  }

  /** The rest of a PLAYING frame after the pass: win at once if the last block fell, otherwise
      move the ball. */
  function AfterPass(c: Config, w: World, p: PassState, f: FrameInput): World
    requires InputInRange(f)
  {
    if p.won then
      w.(blocks := p.blocks, motion := p.motion, score := p.score + WinBonus(c.difficulty, f.elapsed, w.lives),
         state := Win)
    else MoveBall(c, w.(blocks := p.blocks, motion := p.motion, score := p.score), f)
  }

  /** The paddle's move at the start of every frame. */
  function MovePaddle(c: Config, w: World, f: FrameInput): World {
    w.(paddle := NextPosition(w.paddle, PADDLE_WIDTH, f.delta, f.left, f.right, c.stageWidth))
  }

  /** GameManager.update: the paddle moves in every state, then the state's branch runs. */
  function Frame(c: Config, w: World, f: FrameInput): World
    requires InputInRange(f)
  {
    var w1 := MovePaddle(c, w, f);
    match w.state
    case Playing => AfterPass(c, w1, CollisionPass(c, w1, f), f)
    case Ready => Spawn(c, ReadyFrame(w1, f.launch), f)
    case _ => Spawn(c, w1, f)
  }

  /** The invariant of a game in progress: every block state is consistent, the paddle is on
      the stage, the lives never fall below zero, and a game still being played has a life
      left. */
  predicate WorldInvariant(c: Config, w: World) {
    && AllHealthConsistent(w.blocks) && InsideStage(w.paddle.x, PADDLE_WIDTH, c.stageWidth)
    && w.lives >= 0 && ((w.state == Ready || w.state == Playing) ==> w.lives >= 1)
  }

  /** Spawning only regenerates a block. */
  lemma SpawnKeepsInvariant(c: Config, w: World, f: FrameInput)
    requires InputInRange(f) && WorldInvariant(c, w) && GridInMap(c.grid, w.blocks)
    ensures var r := Spawn(c, w, f);
            WorldInvariant(c, r) && r.blocks.Keys == w.blocks.Keys && r == w.(blocks := r.blocks)
  {
    if f.sinceSpawn > SpawnRate(c.difficulty) {
      RegenerateRevivesOne(c.grid, w.blocks, f.pick);
    }
  }

  /** Losing the ball costs exactly one life and BALL_DIE_SCORE_DECREASE, plus
      GAME_OVER_SCORE_DECREMENT when it was the last life, and leaves READY or GAME_OVER. */
  lemma LoseBallOutcome(c: Config, w: World, f: FrameInput)
    requires InputInRange(f) && WorldInvariant(c, w) && GridInMap(c.grid, w.blocks) && w.state == Playing
    ensures var r := LoseBall(c, w, f);
            && WorldInvariant(c, r) && r.blocks.Keys == w.blocks.Keys
            && r.lives == w.lives - 1 && r.ball == w.ball && r.motion == w.motion && r.paddle == w.paddle
            && (r.state == GameOver <==> r.lives <= 0) && (r.state == Ready <==> r.lives > 0)
            && r.score == w.score - BALL_DIE_SCORE_DECREASE - (if r.lives <= 0 then GAME_OVER_SCORE_DECREMENT else 0)
  {
    if w.lives > 1 {
      SpawnKeepsInvariant(c, w.(state := Ready, lives := w.lives - 1, score := w.score - BALL_DIE_SCORE_DECREASE), f);
    }
  }

  /** Moving the ball keeps PLAYING unless the ball leaves the screen, which it can do only
      through the floor, and then LoseBall applies. */
  lemma MoveBallOutcome(c: Config, w: World, f: FrameInput)
    requires InputInRange(f) && WorldInvariant(c, w) && GridInMap(c.grid, w.blocks) && w.state == Playing
    ensures var r := MoveBall(c, w, f);
            && WorldInvariant(c, r) && r.blocks.Keys == w.blocks.Keys
            && r.motion == Bounce(w.ball, w.motion, BALL_RADIUS, c.stageWidth, c.stageHeight)
            && r.ball == w.ball.Add(r.motion)
            && (CircleOnScreen(r.ball, BALL_RADIUS, c.stageWidth, c.stageHeight) ==>
                  r.state == Playing && r.lives == w.lives && r.score == w.score)
            && (!CircleOnScreen(r.ball, BALL_RADIUS, c.stageWidth, c.stageHeight) ==>
                  r.lives == w.lives - 1 && r.state == (if r.lives <= 0 then GameOver else Ready))
  {
    var bounced := Bounce(w.ball, w.motion, BALL_RADIUS, c.stageWidth, c.stageHeight);
    var moved := w.(motion := bounced, ball := w.ball.Add(bounced));
    SpawnKeepsInvariant(c, moved, f);
    LoseBallOutcome(c, moved, f);
  }

  /** The end of a PLAYING frame: a won pass ends the game with a positive bonus and every block
      destroyed; otherwise the ball moves. */
  lemma AfterPassOutcome(c: Config, w: World, p: PassState, f: FrameInput)
    requires InputInRange(f) && WorldInvariant(c, w) && GridInMap(c.grid, w.blocks) && w.state == Playing
    requires p.blocks.Keys == w.blocks.Keys && AllHealthConsistent(p.blocks) && (p.won ==> Cleared(p.blocks))
    requires p.score >= w.score
    ensures var r := AfterPass(c, w, p, f);
            && WorldInvariant(c, r) && r.blocks.Keys == w.blocks.Keys
            && (p.won ==> r.state == Win && Cleared(r.blocks) && r.score > p.score && r.lives == w.lives)
            && (!p.won ==> r.state != Win && (r.lives == w.lives || r.lives == w.lives - 1))
            && (r.state == GameOver ==> r.lives <= 0)
            && (r.lives != w.lives ==> !CircleOnScreen(r.ball, BALL_RADIUS, c.stageWidth, c.stageHeight))
            && (r.state == Playing ==> r.score == p.score && r.lives == w.lives)
  {
    if p.won {
      WinBonusAtLeastFixedPart(c.difficulty, f.elapsed, w.lives);
    } else {
      MoveBallOutcome(c, w.(blocks := p.blocks, motion := p.motion, score := p.score), f);
    }
  }

  /** A frame keeps the invariant and the set of blocks. */
  lemma FrameKeepsInvariant(c: Config, w: World, f: FrameInput)
    requires InputInRange(f) && WorldInvariant(c, w) && GridInMap(c.grid, w.blocks)
    ensures WorldInvariant(c, Frame(c, w, f)) && Frame(c, w, f).blocks.Keys == w.blocks.Keys
  {
    var w1 := MovePaddle(c, w, f);
    match w.state
    case Playing =>
      PassGuarantees(PassContact(w1, f), PassStart(w1, f), c.entities);
      AfterPassOutcome(c, w1, CollisionPass(c, w1, f), f);
    case Ready =>
      SpawnKeepsInvariant(c, ReadyFrame(w1, f.launch), f);
    case _ =>
      SpawnKeepsInvariant(c, w1, f);
  }

  /** Frames one after another, as the render loop calls update. */
  function Run(c: Config, w: World, fs: seq<FrameInput>): World
    requires forall i :: 0 <= i < |fs| ==> InputInRange(fs[i])
    decreases |fs|
  {
    if fs == [] then w else Run(c, Frame(c, w, fs[0]), fs[1..])
  }

  /** The invariant holds after any number of frames, so in every state reached from one that
      satisfies it, and the set of blocks never changes. */
  lemma {:induction false} RunKeepsInvariant(c: Config, w: World, fs: seq<FrameInput>)
    requires forall i :: 0 <= i < |fs| ==> InputInRange(fs[i])
    requires WorldInvariant(c, w) && GridInMap(c.grid, w.blocks)
    ensures WorldInvariant(c, Run(c, w, fs)) && Run(c, w, fs).blocks.Keys == w.blocks.Keys
    decreases |fs|
  {
    if fs != [] {
      FrameKeepsInvariant(c, w, fs[0]);
      var w1 := Frame(c, w, fs[0]);
      assert GridInMap(c.grid, w1.blocks);
      RunKeepsInvariant(c, w1, fs[1..]);
    }
  }

  /** WIN and GAME_OVER are final: only the paddle moves and blocks regenerate. */
  lemma FinalStatesAreFrozen(c: Config, w: World, f: FrameInput)
    requires InputInRange(f) && (w.state == Win || w.state == GameOver)
    ensures var r := Frame(c, w, f);
            r == w.(paddle := r.paddle, blocks := r.blocks)
  {
    var w1 := MovePaddle(c, w, f);
    assert Frame(c, w, f) == Spawn(c, w1, f);
  }

  /** READY only waits for a launch, keeping the ball on the paddle. */
  lemma ReadyWaitsForLaunch(c: Config, w: World, f: FrameInput)
    requires InputInRange(f) && w.state == Ready
    ensures var r := Frame(c, w, f);
            && r.state == (if f.launch then Playing else Ready)
            && r.ball == RestingPosition(r.paddle) && r.score == w.score && r.lives == w.lives
            && r.motion == (if f.launch then Vector2(0.0, 1.0) else w.motion)
  {
  }

  /** A PLAYING frame: a lost ball costs exactly one life, the game is over only when no life is
      left, and it is won only when no block is left, with a higher score. */
  lemma PlayingFrameOutcome(c: Config, w: World, f: FrameInput)
    requires InputInRange(f) && WorldInvariant(c, w) && GridInMap(c.grid, w.blocks)
    requires w.state == Playing
    ensures var r := Frame(c, w, f);
            && (r.lives == w.lives || (r.lives == w.lives - 1 && !CircleOnScreen(r.ball, BALL_RADIUS, c.stageWidth, c.stageHeight)))
            && (r.state == GameOver ==> r.lives <= 0)
            && (r.state == Win ==> Cleared(r.blocks) && r.score > w.score)
  {
    var w1 := MovePaddle(c, w, f);
    PassGuarantees(PassContact(w1, f), PassStart(w1, f), c.entities);
    AfterPassOutcome(c, w1, CollisionPass(c, w1, f), f);
  }

  /** A PLAYING frame ends with the speed its speed update set: collisions and wall bounces
      keep it, given the kick's setLength factor for that speed. */
  lemma PlayingFrameKeepsSpeed(c: Config, w: World, f: FrameInput)
    requires InputInRange(f) && w.state == Playing
    requires var w1 := MovePaddle(c, w, f);
             var trajectory := KickTrajectory(w1.ball, w1.paddle, PADDLE_WIDTH);
             ScalesToSquaredLength(f.kickScale, trajectory, PassStart(w1, f).motion.Length2()) && trajectory.Length2() != 0.0
    ensures Frame(c, w, f).motion.Length2() == w.motion.Scale(f.lengthScale).Length2()
  {
    var w1 := MovePaddle(c, w, f);
    var p := CollisionPass(c, w1, f);
    PassKeepsSpeed(PassContact(w1, f), PassStart(w1, f), c.entities);
    assert Frame(c, w, f) == AfterPass(c, w1, p, f);
    MotionAfterPass(c, w1, p, f);
    ReflectionKeepsLength(p.motion, Bounce(w1.ball, p.motion, BALL_RADIUS, c.stageWidth, c.stageHeight));
  }

  lemma MotionAfterPass(c: Config, w: World, p: PassState, f: FrameInput)
    requires InputInRange(f)
    ensures var r := AfterPass(c, w, p, f);
            r.motion == (if p.won then p.motion else Bounce(w.ball, p.motion, BALL_RADIUS, c.stageWidth, c.stageHeight))
  {
  }
}
