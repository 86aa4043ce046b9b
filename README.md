# Outbreak game core in Dafny

This project models the simulation core of Outbreak, a Breakout-style game written in Java on
libGDX. The player moves a paddle along the bottom of the stage. A ball bounces off the side
walls, the ceiling, the paddle and a grid of blocks at the top. Blocks lose health when hit and
disappear at zero. Destroyed blocks are regenerated now and then. A game is won when no block
is left, and lost when the last life is gone.

The model has one Dafny module per Java file:

- `Util` holds the geometry tests: closed-interval membership, interval overlap and the
  circle-versus-rectangle test. They are proved exact against an independent definition of
  "the disc and the rectangle share a point".
- `GameObjects` holds the shared entity state: position, size and visibility.
- `Blocks` models the block's health state machine. `BlockView` is a block's state as a value;
  `Revive` and `Hit` are `init` and `takeHit` on those values.
- `Balls` models the ball: wall and ceiling bounces, the per-axis bounce off a block, the kick
  off the paddle and the off-screen test.
- `Paddles` models the paddle: input moves it, and a move that leaves the stage is undone.
- `GameRules` states the rules of a game as functions on values:
  - the grid's size and the starting health of each row;
  - the collision pass (`Step`, `Pass`);
  - one frame of `update` (`Frame`);
  - block regeneration (`Regenerate`);
  - the win bonus.

  Its lemmas state what the rules guarantee.
- `GameManagers` holds the `GameManager` class, with the manager's fields. Each method is proved
  against the functions in `GameRules`. `Update` changes the manager's observable state
  (`View()`) exactly as `Frame` says.

Java's subclassing of `GameObject` becomes composition: `Block`, `Ball` and `Paddle` each own a
`GameObject` as `body`. The `gameObjects` list holds `Entity` values that tell a block, the
ball and the paddle apart, as `instanceof` does. Float coordinates are exact reals.
`Vector2.dst(...) <= radius` is compared through squared distances.

## Model

| member | source | states |
|---|---|---|
| Util.IsInInterval | core/src/com/udacity/game_dev/outbreak/Utilities/Util.java:65-67 | x lies in the closed interval [a, b], both ends included; its properties are stated by Util.IntervalsOverlapIffCommonPoint |
| Util.IntervalsOverlap | core/src/com/udacity/game_dev/outbreak/Utilities/Util.java:54-56 | the closed intervals [a, b] and [c, d] meet when b >= c and a <= d; its properties are stated by Util.IntervalsOverlapSymmetric and Util.IntervalsOverlapIffCommonPoint |
| Util.RectIntersectsCircle | core/src/com/udacity/game_dev/outbreak/Utilities/Util.java:32-43 | the two-branch test: the bounding square when the centre is in either span, otherwise a corner within the radius; Util.RectIntersectsCircleIsExact and Util.RectIntersectsCircleMeansShared state what it decides |
| Util.IntervalsOverlapSymmetric | core/src/com/udacity/game_dev/outbreak/Utilities/Util.java:54-56 | interval overlap is symmetric in its two intervals |
| Util.IntervalsOverlapIffCommonPoint | core/src/com/udacity/game_dev/outbreak/Utilities/Util.java:54-67 | for proper intervals, overlap holds iff some point lies in both, and membership of x is overlap with [x, x] (both endpoints inclusive) |
| Util.SideBranchIsExact | core/src/com/udacity/game_dev/outbreak/Utilities/Util.java:33-35 | when the centre lies in the rectangle's x-span or y-span, the bounding-interval test holds iff the nearest point of the rectangle is within the radius |
| Util.CornerBranchIsExact | core/src/com/udacity/game_dev/outbreak/Utilities/Util.java:36-41 | when the centre lies in neither span, "some corner within the radius" holds iff the nearest point of the rectangle is within the radius |
| Util.RectIntersectsCircleIsExact | core/src/com/udacity/game_dev/outbreak/Utilities/Util.java:32-43 | for non-negative radius and size, the test holds iff the squared distance to the nearest point of the closed rectangle is at most radius² |
| Util.RectIntersectsCircleMeansShared | core/src/com/udacity/game_dev/outbreak/Utilities/Util.java:12-43 | the test holds iff the closed disc and the closed rectangle share a point, as its documentation claims |
| Util.CentreInsideIntersects | core/src/com/udacity/game_dev/outbreak/Utilities/Util.java:33-35 | a circle whose centre is in the closed rectangle meets it, for any radius >= 0 |
| Util.RectIntersectsCircleMirror | core/src/com/udacity/game_dev/outbreak/Utilities/Util.java:32-43 | mirroring circle and rectangle left to right does not change the answer |
| Util.RectIntersectsCircleFlip | core/src/com/udacity/game_dev/outbreak/Utilities/Util.java:32-43 | mirroring circle and rectangle top to bottom does not change the answer |
| GameObjects.GameObject.Empty | core/src/com/udacity/game_dev/outbreak/Game/GameEntities/GameObject.java:18-21 | the no-argument constructor puts the object at the origin, visible |
| GameObjects.GameObject.constructor | core/src/com/udacity/game_dev/outbreak/Game/GameEntities/GameObject.java:23-28 | stores x, y, width and height exactly, and the object is visible; the getters return them |
| GameObjects.GameObject.GetX | core/src/com/udacity/game_dev/outbreak/Game/GameEntities/GameObject.java:40 | the x-coordinate of the position |
| GameObjects.GameObject.GetY | core/src/com/udacity/game_dev/outbreak/Game/GameEntities/GameObject.java:46 | the y-coordinate of the position |
| GameObjects.GameObject.GetWidth | core/src/com/udacity/game_dev/outbreak/Game/GameEntities/GameObject.java:52 | the width |
| GameObjects.GameObject.GetHeight | core/src/com/udacity/game_dev/outbreak/Game/GameEntities/GameObject.java:58 | the height |
| GameObjects.GameObject.GetIsVisible | core/src/com/udacity/game_dev/outbreak/Game/GameEntities/GameObject.java:64 | whether the object is visible |
| GameObjects.GameObject.SetPosition | core/src/com/udacity/game_dev/outbreak/Game/GameEntities/GameObject.java:79-81 | getX() == x and getY() == y afterwards; only the position may change |
| GameObjects.GameObject.Move | core/src/com/udacity/game_dev/outbreak/Game/GameEntities/GameObject.java:87-89 | the position gains the motion componentwise; only the position may change |
| Blocks.Revive | core/src/com/udacity/game_dev/outbreak/Game/GameEntities/Block.java:62-66 | init(h) gives health h, visible, the colour for health h, the same position, and a consistent block |
| Blocks.Hit | core/src/com/udacity/game_dev/outbreak/Game/GameEntities/Block.java:39-47 | health drops by exactly 1 and the position stays; destroyed iff the new health <= 0, and then the block is invisible; otherwise the colour index is newHealth-1 and visibility is unchanged |
| Blocks.HitKeepsHealthConsistent | core/src/com/udacity/game_dev/outbreak/Game/GameEntities/Block.java:39-47 | a hit keeps the block invariant (visible iff health >= 1, colour matches health) and never makes a block visible |
| Blocks.HitTimesLosesHealth | core/src/com/udacity/game_dev/outbreak/Game/GameEntities/Block.java:39-47 | n hits lower health by n, keep the invariant, never revive, and at least health-many hits destroy the block |
| Blocks.Block.constructor | core/src/com/udacity/game_dev/outbreak/Game/GameEntities/Block.java:14-17 | a BLOCK_WIDTH × BLOCK_HEIGHT block at (x, y) with the starting health, its colour and visible |
| Blocks.Block.UpdateColor | core/src/com/udacity/game_dev/outbreak/Game/GameEntities/Block.java:31-33 | the colour becomes BLOCK_HEALTH_COLORS[health-1], and is only called with 1 <= health <= MAX_BLOCK_HEALTH |
| Blocks.Block.TakeHit | core/src/com/udacity/game_dev/outbreak/Game/GameEntities/Block.java:39-47 | the block changes exactly as Hit says, keeps its invariant, and its position and size do not change |
| Blocks.Block.Init | core/src/com/udacity/game_dev/outbreak/Game/GameEntities/Block.java:62-66 | the block changes exactly as Revive says |
| Blocks.Block.OnScreen | core/src/com/udacity/game_dev/outbreak/Game/GameEntities/Block.java:50-56 | strict overlap of the block with the screen on both axes; Blocks.OnScreenMeansSharedInterior states what it decides |
| Blocks.OnScreenMeansSharedInterior | core/src/com/udacity/game_dev/outbreak/Game/GameEntities/Block.java:50-56 | onScreen holds iff the block's rectangle and the screen share an interior point, a strict open-overlap test |
| Paddles.Displacement | core/src/com/udacity/game_dev/outbreak/Game/GameEntities/Paddle.java:23-27 | the signed horizontal step of one frame from the two keys; Paddles.DisplacementByKeys states its value for each key combination |
| Paddles.NextPosition | core/src/com/udacity/game_dev/outbreak/Game/GameEntities/Paddle.java:23-30 | the paddle after one update: moved by Displacement, and moved back when off the stage; Paddles.NextPositionRevertsOffStage states its outcome |
| Paddles.DisplacementByKeys | core/src/com/udacity/game_dev/outbreak/Game/GameEntities/Paddle.java:23-27 | left alone moves left and right alone moves right, by exactly PADDLE_SPEED*delta when delta >= 0; neither or both give 0 |
| Paddles.NextPositionRevertsOffStage | core/src/com/udacity/game_dev/outbreak/Game/GameEntities/Paddle.java:23-30 | y never changes; the paddle takes the move if it stays strictly inside the stage and otherwise returns exactly to where it was; on the stage before means on the stage after |
| Paddles.Paddle.constructor | core/src/com/udacity/game_dev/outbreak/Game/GameEntities/Paddle.java:14-16 | a visible PADDLE_WIDTH × PADDLE_HEIGHT paddle at (x, y) |
| Paddles.Paddle.Update | core/src/com/udacity/game_dev/outbreak/Game/GameEntities/Paddle.java:23-30 | the new position is NextPosition of the old one; only the position may change, so width and height stay |
| Paddles.Paddle.OnScreen | core/src/com/udacity/game_dev/outbreak/Game/GameEntities/Paddle.java:39-41 | the paddle lies strictly between the stage's left and right edges; the height is not consulted |
| Balls.Bounce | core/src/com/udacity/game_dev/outbreak/Game/GameEntities/Ball.java:37-44 | motion.x is negated iff the next x would cross a side wall; motion.y is negated iff the next y would cross the ceiling (the floor never reflects); each component keeps its absolute value |
| Balls.BounceKeepsBallInside | core/src/com/udacity/game_dev/outbreak/Game/GameEntities/Ball.java:37-46 | a ball between the walls and below the ceiling, moving less than half the free room, stays there after move |
| Balls.BlockBounce | core/src/com/udacity/game_dev/outbreak/Game/GameEntities/Ball.java:106-118 | each component keeps its absolute value and at least one is negated |
| Balls.BlockBounceAxes | core/src/com/udacity/game_dev/outbreak/Game/GameEntities/Ball.java:106-118 | x is negated iff the horizontal probe hits, y iff the vertical probe hits, and both when neither hits |
| Balls.ReflectionKeepsLength | core/src/com/udacity/game_dev/outbreak/Game/GameEntities/Ball.java:106-118 | negating components keeps the speed (squared length) of the motion |
| Balls.ScaledToLength | core/src/com/udacity/game_dev/outbreak/Game/GameEntities/Ball.java:53-55 | with the setLength factor, the scaled vector has the target length, and a zero vector stays zero |
| Balls.KickPointsAwayFromOrigin | core/src/com/udacity/game_dev/outbreak/Game/GameEntities/Ball.java:85-99 | the kick sends the ball upward when it is above the trajectory origin, and to the side of the paddle's middle it struck |
| Balls.LostOnlyThroughFloor | core/src/com/udacity/game_dev/outbreak/Game/GameEntities/Ball.java:122-129 | a ball kept between the walls and below the ceiling is off screen iff it has left through the floor |
| Balls.Ball.OnScreen | core/src/com/udacity/game_dev/outbreak/Game/GameEntities/Ball.java:123-129 | the ball's bounding square strictly overlaps the screen on both axes; Balls.LostOnlyThroughFloor states how a ball can leave it |
| Balls.Ball.DetectCollision | core/src/com/udacity/game_dev/outbreak/Game/GameEntities/Ball.java:64-68 | the circle test at the ball's position, moved by its motion when afterMotion holds; Balls.DetectCollisionMeansContact states what it decides |
| Balls.Ball.DetectCollisionAt | core/src/com/udacity/game_dev/outbreak/Game/GameEntities/Ball.java:147-150 | the circle-versus-rectangle test of a circle against an object's rectangle |
| Balls.DetectCollisionMeansContact | core/src/com/udacity/game_dev/outbreak/Game/GameEntities/Ball.java:64-68 | detectCollision tests the circle at position+motion iff afterMotion, otherwise at position, and holds iff that disc meets the object's rectangle |
| Balls.Ball.constructor | core/src/com/udacity/game_dev/outbreak/Game/GameEntities/Ball.java:17-24 | radius BALL_RADIUS, width and height 2*radius, the given speed, visible |
| Balls.Ball.Move | core/src/com/udacity/game_dev/outbreak/Game/GameEntities/Ball.java:37-46 | the motion becomes Bounce of the old one and the position gains the final motion |
| Balls.Ball.UpdateMotion | core/src/com/udacity/game_dev/outbreak/Game/GameEntities/Ball.java:53-55 | the motion keeps its direction and takes the length speed*delta, unless it is zero |
| Balls.Ball.Collide | core/src/com/udacity/game_dev/outbreak/Game/GameEntities/Ball.java:75-79 | a paddle gives a kick and false; a block gives the block bounce, one hit and the hit's result; anything else gives false and changes nothing |
| Balls.Ball.KickOffPaddle | core/src/com/udacity/game_dev/outbreak/Game/GameEntities/Ball.java:85-99 | the motion becomes the trajectory from the origin below the paddle, rescaled; the speed is kept whenever the trajectory is non-zero |
| Balls.Ball.CollideWithBlock | core/src/com/udacity/game_dev/outbreak/Game/GameEntities/Ball.java:106-120 | the motion becomes BlockBounce of the old one; the block takes exactly one hit; the result is that hit's result |
| Balls.Ball.InitHeading | core/src/com/udacity/game_dev/outbreak/Game/GameEntities/Ball.java:135-137 | the motion becomes the heading |
| GameRules.Trunc | core/src/com/udacity/game_dev/outbreak/Game/GameManager.java:45-48 | the (int) cast truncates toward zero: the floor for non-negative values, the ceiling for negative ones |
| GameRules.Round | core/src/com/udacity/game_dev/outbreak/Game/GameManager.java:176 | Math.round gives the nearest integer, with halves rounded up |
| GameRules.GridIsLargestThatFits | core/src/com/udacity/game_dev/outbreak/Game/GameManager.java:45-49 | numColumns columns fit across the stage and one more would not; likewise numRows rows in the block area |
| GameRules.GridBlockInsideBlockArea | core/src/com/udacity/game_dev/outbreak/Game/GameManager.java:143-147 | every grid block lies inside the stage's width and the top BLOCK_AREA_SCREEN_RATIO of its height |
| GameRules.GridBlocksDoNotOverlap | core/src/com/udacity/game_dev/outbreak/Game/GameManager.java:143-147 | blocks of different cells do not overlap |
| GameRules.StartingHealth | core/src/com/udacity/game_dev/outbreak/Game/GameManager.java:175-183 | the starting health of any row is in [1, MAX_BLOCK_HEALTH] |
| GameRules.StartingHealthFallsByBand | core/src/com/udacity/game_dev/outbreak/Game/GameManager.java:175-183 | within the bands, health never rises going down the grid, and row 0 starts at MAX_BLOCK_HEALTH |
| GameRules.GridEntitiesAreGridBlocks | core/src/com/udacity/game_dev/outbreak/Game/GameManager.java:125-134 | the objects generateBlocks adds are exactly the blocks of the grid |
| GameRules.Step | core/src/com/udacity/game_dev/outbreak/Game/GameManager.java:77-91 | one loop iteration: a visible, touched block bounces the ball and takes a hit (BLOCK_DESTROY_SCORE_INCREASE and a win check when destroyed, BLOCK_HIT_SCORE_INCREASE otherwise); a touched paddle kicks the ball; anything else changes nothing |
| GameRules.Pass | core/src/com/udacity/game_dev/outbreak/Game/GameManager.java:76-92 | the loop over gameObjects in order, one Step each, with nothing changing after a win; its lemmas follow |
| GameRules.PassGuarantees | core/src/com/udacity/game_dev/outbreak/Game/GameManager.java:76-92 | the collision loop keeps the set of blocks and their invariant, leaves destroyed blocks alone, never raises health or lowers the score, adds at most 100 per object, and wins only when no block is visible |
| GameRules.PassStopsAtWin | core/src/com/udacity/game_dev/outbreak/Game/GameManager.java:82-87 | once the last block is destroyed, the remaining objects change nothing (update returns) |
| GameRules.PassKeepsSpeed | core/src/com/udacity/game_dev/outbreak/Game/GameManager.java:76-92 | collisions keep the ball's speed, given the kick's setLength factor for that speed |
| GameRules.PassTouchesOnlyListedBlocks | core/src/com/udacity/game_dev/outbreak/Game/GameManager.java:76-92 | a block the loop never reaches keeps its state |
| GameRules.OpenPositionsExact | core/src/com/udacity/game_dev/outbreak/Game/GameManager.java:154-161 | openPositions lists exactly the cells whose block is invisible |
| GameRules.PickIndex | core/src/com/udacity/game_dev/outbreak/Game/GameManager.java:165 | the random index is within the list of open positions |
| GameRules.Regenerate | core/src/com/udacity/game_dev/outbreak/Game/GameManager.java:152-168 | nothing when no cell is open, otherwise the picked open cell revived with health 1; GameRules.RegenerateRevivesOne states its outcome |
| GameRules.RegenerateRevivesOne | core/src/com/udacity/game_dev/outbreak/Game/GameManager.java:152-168 | with every block visible nothing changes; otherwise exactly one previously invisible grid block is revived with health 1 and every other block is unchanged |
| GameRules.WinBonus | core/src/com/udacity/game_dev/outbreak/Game/GameManager.java:218-233 | the time bonus, plus the difficulty bonus, plus REMAINING_LIVES_BONUS per life, truncated to an int; its lemmas follow |
| GameRules.WinBonusAtLeastFixedPart | core/src/com/udacity/game_dev/outbreak/Game/GameManager.java:218-233 | the bonus is at least the difficulty bonus plus 200 per life, so strictly positive |
| GameRules.WinBonusRewardsSpeed | core/src/com/udacity/game_dev/outbreak/Game/GameManager.java:218-233 | winning sooner never gives a smaller bonus |
| GameRules.Spawn | core/src/com/udacity/game_dev/outbreak/Game/GameManager.java:115-119 | the blocks regenerate when more than spawnRate seconds have passed since the last spawn |
| GameRules.ReadyFrame | core/src/com/udacity/game_dev/outbreak/Game/GameManager.java:103-114 | the ball rests on the paddle, and a launch gives PLAYING with heading (0, 1) |
| GameRules.LoseBall | core/src/com/udacity/game_dev/outbreak/Game/GameManager.java:94-101 | READY with one life and BALL_DIE_SCORE_DECREASE less, then GAME_OVER with GAME_OVER_SCORE_DECREMENT less when no life is left, and no spawn in that case |
| GameRules.MoveBall | core/src/com/udacity/game_dev/outbreak/Game/GameManager.java:93-102 | ball.move, then LoseBall when the ball is off the screen |
| GameRules.AfterPass | core/src/com/udacity/game_dev/outbreak/Game/GameManager.java:82-102 | a won pass adds the win bonus and ends in WIN before the ball moves; otherwise MoveBall |
| GameRules.Frame | core/src/com/udacity/game_dev/outbreak/Game/GameManager.java:70-120 | the paddle moves, then the branch of the current state runs; GameRules.FrameKeepsInvariant and the outcome lemmas state what a frame guarantees |
| GameRules.SpawnKeepsInvariant | core/src/com/udacity/game_dev/outbreak/Game/GameManager.java:115-119 | the spawn check changes only the blocks and keeps their invariant |
| GameRules.LoseBallOutcome | core/src/com/udacity/game_dev/outbreak/Game/GameManager.java:94-101 | losing the ball costs one life and 100 points, plus 500 and GAME_OVER when no life is left, otherwise READY |
| GameRules.MoveBallOutcome | core/src/com/udacity/game_dev/outbreak/Game/GameManager.java:93-102 | the ball moves by its bounced motion; on screen the game stays PLAYING with score and lives kept, off screen one life is lost |
| GameRules.AfterPassOutcome | core/src/com/udacity/game_dev/outbreak/Game/GameManager.java:82-102 | a won pass ends in WIN with no block visible and a higher score; otherwise never WIN and at most one life lost |
| GameRules.FrameKeepsInvariant | core/src/com/udacity/game_dev/outbreak/Game/GameManager.java:70-120 | every frame keeps the block invariant, the paddle on the stage, lives >= 0 with at least one life in READY and PLAYING, and the set of blocks |
| GameRules.Run | core/src/com/udacity/game_dev/outbreak/Game/GameScreen.java:57-58 | frames one after another, as the render loop calls update once per frame; the loop stops calling it in WIN and GAME_OVER, where GameRules.FinalStatesAreFrozen shows a frame changes only the paddle and the blocks |
| GameRules.RunKeepsInvariant | core/src/com/udacity/game_dev/outbreak/Game/GameManager.java:70-120 | after any number of frames the invariant still holds and the set of blocks is the same, so the invariant holds in every state reached from a game that satisfies it |
| GameRules.FinalStatesAreFrozen | core/src/com/udacity/game_dev/outbreak/Game/GameManager.java:70-120 | in WIN or GAME_OVER only the paddle moves and blocks regenerate |
| GameRules.ReadyWaitsForLaunch | core/src/com/udacity/game_dev/outbreak/Game/GameManager.java:103-114 | in READY the ball rests centred on top of the paddle, and a launch switches to PLAYING with heading (0, 1) |
| GameRules.PlayingFrameOutcome | core/src/com/udacity/game_dev/outbreak/Game/GameManager.java:73-102 | a PLAYING frame loses a life only when the ball leaves the screen, ends the game only with no life left, and wins only with no block left and a higher score |
| GameRules.PlayingFrameKeepsSpeed | core/src/com/udacity/game_dev/outbreak/Game/GameManager.java:73-93 | a PLAYING frame ends with the speed the speed update set |
| GameManagers.GameManager.constructor | core/src/com/udacity/game_dev/outbreak/Game/GameManager.java:40-54 | numColumns and numRows are the grid size that fits the stage, numBlocks their product, and the lists are empty |
| GameManagers.GameManager.Init | core/src/com/udacity/game_dev/outbreak/Game/GameManager.java:238-263 | score 0, STARTING_LIVES, READY, the full grid of initial blocks, the paddle centred at PADDLE_HEIGHT and the ball at rest on it; the manager invariant holds, every grid block has a state, and on a stage wider than the paddle the game invariant WorldInvariant holds |
| GameManagers.GameManager.DifficultySettings | core/src/com/udacity/game_dev/outbreak/Game/GameManager.java:243-257 | the ball speed and spawn rate for the difficulty, both positive |
| GameManagers.GameManager.CreateParts | core/src/com/udacity/game_dev/outbreak/Game/GameManager.java:258-263 | a new ball and paddle, appended to gameObjects in that order, with the ball resting centred on top of the paddle, and READY |
| GameManagers.GameManager.GetStartingHealthByRow | core/src/com/udacity/game_dev/outbreak/Game/GameManager.java:175-183 | the loop returns StartingHealth: the first band the row falls in, or MAX_BLOCK_HEALTH past the bands |
| GameManagers.GameManager.GenerateBlock | core/src/com/udacity/game_dev/outbreak/Game/GameManager.java:143-147 | a new valid block at (column*BLOCK_WIDTH, stageHeight-(row+1)*BLOCK_HEIGHT) with the given health |
| GameManagers.GameManager.GenerateBlocks | core/src/com/udacity/game_dev/outbreak/Game/GameManager.java:125-134 | a numRows × numColumns grid of new, valid blocks, each in its cell with its row's starting health, with distinct bodies, and added to gameObjects row by row |
| GameManagers.GameManager.AddRow | core/src/com/udacity/game_dev/outbreak/Game/GameManager.java:126-133 | one outer pass appends one row of new initial blocks and keeps gameObjects equal to the grid row by row |
| GameManagers.GameManager.GenerateRow | core/src/com/udacity/game_dev/outbreak/Game/GameManager.java:127-131 | numColumns new initial blocks, left to right, each appended to gameObjects |
| GameManagers.GameManager.IsGameWon | core/src/com/udacity/game_dev/outbreak/Game/GameManager.java:189-196 | true iff no block of the grid is visible |
| GameManagers.GameManager.ListOpenPositions | core/src/com/udacity/game_dev/outbreak/Game/GameManager.java:154-162 | the loops list the open cells row by row, as OpenPositions does |
| GameManagers.GameManager.GenerateRandomBlock | core/src/com/udacity/game_dev/outbreak/Game/GameManager.java:152-168 | the blocks change exactly as Regenerate says, and the invariant holds |
| GameManagers.GameManager.ReviveBlock | core/src/com/udacity/game_dev/outbreak/Game/GameManager.java:167 | the chosen block is revived with health 1 and no other block changes |
| GameManagers.GameManager.GuardMeansTouch | core/src/com/udacity/game_dev/outbreak/Game/GameManager.java:77-80 | the loop's guard on a block or the paddle is exactly the contact the rules test; an object failing it changes nothing |
| GameManagers.GameManager.CollideWith | core/src/com/udacity/game_dev/outbreak/Game/GameManager.java:77-91 | one iteration of the collision loop changes blocks, motion and score exactly as Step says |
| GameManagers.GameManager.HitBlock | core/src/com/udacity/game_dev/outbreak/Game/GameManager.java:82-90 | a touched block bounces the ball and takes a hit, scoring 100 and testing for a win if destroyed, 50 otherwise, as Step says |
| GameManagers.GameManager.ScoreBlock | core/src/com/udacity/game_dev/outbreak/Game/GameManager.java:82-90 | +100 and won iff no block is left for a destroyed block; +50 otherwise |
| GameManagers.GameManager.CollideWithBlock | core/src/com/udacity/game_dev/outbreak/Game/GameManager.java:82 | only the hit block changes, by one Hit, and the motion becomes BlockBounce |
| GameManagers.GameManager.CollideWithPaddle | core/src/com/udacity/game_dev/outbreak/Game/GameManager.java:82-88 | the kick gives no block change and no score |
| GameManagers.GameManager.CalculateWinBonus | core/src/com/udacity/game_dev/outbreak/Game/GameManager.java:218-233 | the bonus is WinBonus for the difficulty, elapsed seconds and lives |
| GameManagers.GameManager.Win | core/src/com/udacity/game_dev/outbreak/Game/GameManager.java:201-204 | the score gains the win bonus and the state is WIN |
| GameManagers.GameManager.GameOver | core/src/com/udacity/game_dev/outbreak/Game/GameManager.java:209-212 | the score loses GAME_OVER_SCORE_DECREMENT and the state is GAME_OVER |
| GameManagers.GameManager.ResolveCollisions | core/src/com/udacity/game_dev/outbreak/Game/GameManager.java:76-92 | the loop over gameObjects, stopping at a win, changes blocks, motion and score exactly as Pass says over the whole list |
| GameManagers.GameManager.CollideNext | core/src/com/udacity/game_dev/outbreak/Game/GameManager.java:76-91 | the i-th object extends the pass over the first i objects by one Step |
| GameManagers.GameManager.SpeedUpdate | core/src/com/udacity/game_dev/outbreak/Game/GameManager.java:74 | the motion is rescaled by the frame's setLength factor and nothing else changes |
| GameManagers.GameManager.PlayingFrame | core/src/com/udacity/game_dev/outbreak/Game/GameManager.java:73-102 | the PLAYING branch ends in the state AfterPass gives for the collision pass, and reports whether update returns before the spawn check |
| GameManagers.GameManager.AfterCollisions | core/src/com/udacity/game_dev/outbreak/Game/GameManager.java:84-102 | a won pass ends in WIN with the bonus; otherwise the ball moves as MoveBall says |
| GameManagers.GameManager.MoveBallFrame | core/src/com/udacity/game_dev/outbreak/Game/GameManager.java:93-102 | ball.move then the off-screen check, as MoveBall says; returns early only on game over |
| GameManagers.GameManager.LoseBallFrame | core/src/com/udacity/game_dev/outbreak/Game/GameManager.java:95-101 | READY, one life less, 100 points less, and GAME_OVER with 500 more off when no life is left |
| GameManagers.GameManager.ReadyBranch | core/src/com/udacity/game_dev/outbreak/Game/GameManager.java:103-114 | the READY branch changes the state exactly as ReadyFrame says |
| GameManagers.GameManager.Launch | core/src/com/udacity/game_dev/outbreak/Game/GameManager.java:110-113 | PLAYING with motion (0, 1) |
| GameManagers.GameManager.SpawnCheck | core/src/com/udacity/game_dev/outbreak/Game/GameManager.java:116-119 | a block is regenerated iff the spawn interval has passed, as Spawn says |
| GameManagers.GameManager.PaddleFrame | core/src/com/udacity/game_dev/outbreak/Game/GameManager.java:71 | the paddle moves as NextPosition says and nothing else changes |
| GameManagers.GameManager.Update | core/src/com/udacity/game_dev/outbreak/Game/GameManager.java:70-120 | one frame changes the manager's state exactly as Frame says, keeping the manager invariant |

## Left out

- Rendering is left out: every `render` method, the screens, the UI and the launcher. They only
  draw and hold no game logic.
- Clocks are left out. `Util.secondsSince`, `startTime` and `lastBlockSpawnTime` read the
  system clock. Each frame's `FrameInput` supplies the values instead: `elapsed` is the seconds
  since `init`, and `sinceSpawn` the seconds since the last spawn. Resetting the spawn timer is
  the caller's part. The source never initialises `lastBlockSpawnTime`, so its first frame
  always spawns; here that is the caller passing a large `sinceSpawn`.
- Keyboard input is left out. `Gdx.input` becomes the booleans `left`, `right` and `launch`.
- The random draw is left out. `MathUtils.random(n - 1)` becomes `pick` in [0, 1), and the
  index is `floor(pick * n)`.
- Balls.Ball.UpdateMotion and Balls.Ball.KickOffPaddle take the factor that `Vector2.setLength`
  applies as an input (`lengthScale`, `kickScale`), because that factor needs a square root.
  `ScalesToSquaredLength` pins the factor down through squared lengths. As a result,
  GameManagers.GameManager.Update requires, in PLAYING, that the caller supplies the right
  factors.
- Float rounding is left out: coordinates and timings are exact reals. Java's `(int)` cast is
  `Trunc`, and `Math.round` is `floor(x + 0.5)`.
- Colours are left out. A block's colour is its index into `BLOCK_HEALTH_COLORS`, and the
  ball's and paddle's colours are not modelled.
- GameManagers.GameManager.Init assumes it is called once, on a new manager, with empty
  `blocks` and `gameObjects`. A second call in the source would append a second grid, because
  `generateBlocks` never clears the lists.
- GameManagers.GameManager.constructor requires a non-negative stage width and height. The
  screen never supplies anything else, and the grid sizing lemmas rely on it.
- Null fields before initialisation are left out. Balls.Ball.constructor sets `motion` to the
  zero vector, where the source leaves it null until `initHeading`. GameManagers.GameManager.constructor
  sets `state` to READY, where the source leaves it null until `init`. In both cases nothing
  reads the field before it is set.
- Integer overflow is left out. `score` and `lives` are unbounded `int`s here, while Java's
  32-bit `int` would wrap around past 2³¹ - 1. Scores of that size are not reachable in play.
- GameManagers.GameManager.Init establishes `WorldInvariant` only when the stage is wider than
  the paddle (`stageWidth > PADDLE_WIDTH`). On a narrower stage the source places the paddle
  off the stage from the start, and the invariant's "paddle on the stage" part does not hold.
- In the source, `gameObjects` is an unordered libGDX `Array`. Nothing is ever removed from it,
  so it keeps insertion order, and the model uses a sequence.
