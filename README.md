# Paoku endless runner — a verified model of the game simulation

Paoku is a browser endless runner. The player runs in place, jumps over obstacles or slides under
them, and collects coins and shields. Obstacles and items scroll in from the right edge of the
screen. One `Game` object holds the state record: running, jumping and sliding flags, score,
lives, combo, speed, the two spawn timestamps, the shield time and the start time. It also owns
two containers of elements, one for obstacles and one for items. Once per animation frame the
game loop runs these steps in order:

1. derive the speed and the life attrition from the elapsed time;
2. run the two spawn gates;
3. scroll every element and cull the ones that have left the screen, counting culled obstacles
   into the combo;
4. decay the shield;
5. resolve collisions.

The loop asks for another frame while lives remain. Otherwise the game ends.

This project models that simulation in Dafny and proves its rules.

- `Geometry` (geometry.dfy): boxes and the inclusive overlap test.
- `Rules` (rules.dfy): the numeric rules in integer units. Times are milliseconds, and speeds and
  offsets are half-pixels, so the source's 0.5 px speed steps stay integral. The speed, the
  attrition window, the obstacle gate, the coin reward and the shield (kept in seconds by the
  source) are each shown, by a lemma, to equal the source's expression evaluated over exact reals.
  The item gate already compares integer milliseconds, as the source does.
- `Entities` (entities.dfy): obstacles and items, and the bulk operations on the containers:
  scroll and cull, and split into touching and not touching.
- `Jumping` (jumping.dfy): the two-phase jump animation as a step function, with its closed-form
  trajectory.
- `Simulation` (simulation.dfy): the state record, the scene (the record plus both containers), and
  each frame step as a function from scene to scene. A frame is their composition, and a run is a
  sequence of frames. The game's promises are lemmas about these functions.
- `Runner` (runner.dfy): the class `Game`. Its methods update the record and the containers in
  place. The loops over the containers mirror the source's `forEach` passes, and each method is
  proved to produce the scene that its `Simulation` function prescribes.

The environment becomes explicit inputs:

- the clock, as `now`;
- the random draws: the jitter in permille, the obstacle variant, the item kind and the item
  height. The model accepts any integer jitter; the source's factor `0.8 + Math.random() * 0.4`
  lies in [800, 1200) permille, and only `Rules.ObstacleIntervalBounds` assumes a range
  ([800, 1200]);
- the screen width;
- the player's box, and a layout function from an element to its box.

The jump and slide timers become method calls. `JumpTick` is one 20 ms tick of a jump animation.
The animation's pose is held by the caller, as the source's closure holds its `jumpHeight`.
`SlideEnd` is the slide's one-second timeout.

The model keeps these behaviours of the code, some of which may look unintended:

- `jump` does not check `isSliding`, so a jump pressed during a slide is accepted and both flags
  are then set (`Simulation.JumpAcceptedWhileSliding`). Only `slide` refuses to start during a
  jump.
- Life attrition fires on every frame inside its window, not once per window. It is guarded only
  by `lives > 1` (`Rules.AttritionEveryFrame`).
- The shield decays by a fixed 16 ms per frame, whatever the real frame time.
- An element is culled when its offset BEFORE the frame's move exceeds the screen width.
- The obstacle spawn interval has no lower bound. A higher score never closes an open gate
  (`Rules.ObstacleGateWidensWithScore`), and at a high enough score even 1 ms since the last
  obstacle opens it (`Rules.ObstacleGateUnbounded`).
- A restart does not cancel a jump animation or a slide timer that is still pending. The model
  keeps this: `StartGame` clears the flags, and a pending `JumpTick` or `SlideEnd` still clears
  them later.

## Model

| member | source | states |
|---|---|---|
| `Geometry.CollidingSymmetric` | script.js:189-192 | the overlap test gives the same answer with its arguments swapped |
| `Geometry.CollidingIffSharedPoint` | script.js:189-192 | for well-formed boxes, colliding is equivalent to sharing a point of the closed rectangles, so touching edges and corners collide |
| `Geometry.TouchingEdgesCollide` | script.js:191 | boxes that only touch along a vertical edge, with overlapping vertical extents, collide |
| `Geometry.SeparatedDoNotCollide` | script.js:191 | a strict gap along x or along y rules out a collision |
| `Geometry.IsColliding` | script.js:189-192 | no contract; the overlap test used by Runner.Game.HitObstacles and CollectItems; properties in Geometry.CollidingSymmetric, CollidingIffSharedPoint, TouchingEdgesCollide, SeparatedDoNotCollide |
| `Rules.Speed` | script.js:83-84 | the speed in half-pixels is at least 10 (5 px) for any non-negative elapsed time |
| `Rules.SpeedMonotone` | script.js:83-84 | the speed never decreases as the elapsed time grows |
| `Rules.SpeedMatchesSource` | script.js:83-84 | half the integer speed equals `5 + floor(elapsed/30000) * 0.5` computed over reals, for every elapsed time |
| `Rules.SpeedAfter65Seconds` | script.js:84 | at 65000 ms the speed is 6 px (12 half-pixels) |
| `Rules.AttritionMatchesSource` | script.js:83-85 | `elapsed >= 0 && elapsed mod 60000 > 57000` holds exactly when the JavaScript remainder `(elapsed/30000) % 2` exceeds 1.9, negative elapsed times included |
| `Rules.InAttritionWindow` | script.js:85 | no contract; the attrition window used by Rules.Attrited; properties in Rules.AttritionMatchesSource, AttritionEveryFrame |
| `Rules.Attrited` | script.js:85-87 | inside the window with more than one life left attrition takes exactly one life, otherwise none; it never takes lives below 1 |
| `Rules.AttritionEveryFrame` | script.js:85-87 | n frames inside the window take min(n, lives - 1) lives: the rule fires on every such frame |
| `Rules.ObstacleDueMatchesSource` | script.js:92-96 | the division-free integer gate equals `now - last > 1500 / (1 + score/500) * jitter` over reals, for every non-negative score |
| `Rules.ObstacleDue` | script.js:93-96 | no contract; the obstacle gate used by Simulation.SpawnObstacle; properties in Rules.ObstacleDueMatchesSource, ObstacleGateWidensWithScore, ObstacleGateUnbounded, ObstacleIntervalBounds |
| `Rules.ObstacleGateWidensWithScore` | script.js:93-96 | a higher score never closes an open gate: the interval shrinks as the score grows |
| `Rules.ObstacleGateUnbounded` | script.js:93-96 | for any non-negative jitter, a score of 750 times the jitter opens the gate after any positive time, so the interval has no positive lower bound |
| `Rules.ObstacleIntervalBounds` | script.js:93-96 | with jitter in [0.8, 1.2], an obstacle is always due after 1.8 s at any score, and never within 1.2 s at score 0 |
| `Rules.ItemDue` | script.js:117 | no contract; the item gate `now - lastItemTime > 3000` used by Simulation.SpawnItem, in the source's own integer milliseconds |
| `Rules.CoinReward` | script.js:209-210 | a coin is worth at least 10 points at any non-negative combo |
| `Rules.CoinRewardMatchesSource` | script.js:209-210 | `10 + 2*combo` equals `floor(10 * (1 + combo*0.2))` over reals |
| `Rules.CoinRewardAtCombo3` | script.js:209-210 | a coin at combo 3 is worth 16 points |
| `Rules.DecayShield` | script.js:157-158 | a positive shield loses 16 ms per frame, and a spent one stays as it is |
| `Rules.ShieldMatchesSource` | script.js:157-158 | divided by 1000, the hit and item shields are the source's 1 and 5 seconds, and one frame of decay is the source's `-= 16/1000` on a positive shield |
| `Rules.DecayedForClosedForm` | script.js:157-159 | k frames of decay from a positive t take 16 ms each until the first frame at which the shield is spent, then nothing more |
| `Rules.ShieldLasts` | script.js:157-159 | a shield of t ms is still up after k frames exactly when 16·k < t |
| `Rules.HitShieldFrames` | script.js:157-158 | the 1 s shield of a hit (line 198) is up for exactly the next 62 frames |
| `Rules.ItemShieldFrames` | script.js:212 | the 5 s shield of a shield item is up for exactly the next 312 frames |
| `Entities.Moved` | script.js:139-140 | moving an element changes its offset by the speed and nothing else about it |
| `Entities.Passed` | script.js:142-144 | the number of elements past the limit before the move is at most the container's length; it is the combo increment of Simulation.Move, and Entities.AdvanceStep and Runner.Game.Scroll count it one element at a time |
| `Entities.Advance` | script.js:136-155 | scrolling keeps as many elements as were not yet past the screen width |
| `Entities.AdvanceStep` | script.js:138-146 | scrolling one more element drops and counts it when it was already past the width, and otherwise appends it moved |
| `Entities.AdvanceKeepsKind` | script.js:138-155 | scrolling the obstacle container yields only obstacles, and the item container only items |
| `Entities.AdvanceSound` | script.js:138-146 | every element left after scrolling is an element that was not past the width, moved by the speed |
| `Entities.AdvanceComplete` | script.js:138-146 | every element not past the width before the move is kept, moved by the speed |
| `Entities.Survivors` | script.js:168-186 | the collision pass keeps as many elements as did not touch the player |
| `Entities.SurvivorsKeepKind` | script.js:168-186 | the collision pass on the obstacle container leaves only obstacles, and on the item container only items |
| `Entities.SurvivorsMember` | script.js:168-186 | an element stays exactly when it was there and its box does not touch the player's |
| `Entities.Hits` | script.js:171 | the number of touching elements is at most the container's length; Entities.Survivors keeps the rest, and Entities.HitsPositive relates a positive count to some touching element |
| `Entities.HitsPositive` | script.js:171 | at least one element is counted as touching exactly when some element's box touches the player's |
| `Entities.CoinHits` | script.js:182-183 | the number of touching coins is at most the number of touching elements; Simulation.ItemPassScore pays each one |
| `Entities.ShieldHit` | script.js:182-183 | no contract; some shield item touches the player; Simulation.ItemPassShield sets the 5000 ms shield exactly then |
| `Jumping.Step` | script.js:223-238 | one timer tick keeps an animation within its reachable poses, and a rising tick never lands |
| `Jumping.TicksFollowTrajectory` | script.js:222-242 | after k ticks the animation is at the closed-form pose: 10·k px rising for k < 13, 10·(26-k) px falling for k < 26, then landed |
| `Jumping.JumpShape` | script.js:222-242 | a jump peaks at 130 px on tick 13, stays between 0 and 130 px, and lands on tick 26 and not before |
| `Jumping.TicksReachable` | script.js:222-242 | any number of ticks from a reachable pose leaves a reachable pose |
| `Simulation.Initial` | script.js:14-26 | a new game is not running, has 3 lives, score 0 and no shield |
| `Simulation.Start` | script.js:42-58 | a started game runs with score 0, lives 3, combo 0, speed 5 px, shield 0, both spawn times 0, the clock at now and empty containers |
| `Simulation.Difficulty` | script.js:81-88 | the difficulty step changes only speed and lives, to the speed rule and the attrition rule at the elapsed time |
| `Simulation.SpawnObstacle` | script.js:90-112 | no contract; specifies Runner.Game.GenerateObstacles: when the gate is open, an obstacle of the drawn variant is appended at offset 0 and the gate's time reset; properties in Rules.ObstacleDueMatchesSource, ObstacleIntervalBounds |
| `Simulation.SpawnItem` | script.js:114-134 | no contract; specifies Runner.Game.GenerateItems: when the gate is open, a coin or shield item is appended at offset 0 and the drawn height, and the gate's time reset |
| `Simulation.Move` | script.js:136-163 | no contract; specifies Runner.Game.UpdateGameElements; properties in Simulation.MoveEffect, MoveDecaysShield |
| `Simulation.Hit` | script.js:194-204 | no contract; specifies Runner.Game.HandleCollision; properties in Simulation.HitEffect |
| `Simulation.Collect` | script.js:206-215 | no contract; specifies Runner.Game.CollectItem; properties in Simulation.CollectEffect |
| `Simulation.ObstaclePass` | script.js:168-177 | no contract; specifies Runner.Game.HitObstacles; properties in Simulation.ObstaclePassClosedForm, ObstaclePassStep |
| `Simulation.ItemPass` | script.js:179-186 | no contract; specifies Runner.Game.CollectItems; properties in Simulation.ItemPassClosedForm, ItemPassFrame, ItemPassScore, ItemPassShield, ItemPassStep |
| `Simulation.Collide` | script.js:165-187 | no contract; specifies Runner.Game.CheckCollisions; properties in Simulation.CollideClosedForm, CollideRemovesExactlyTouching, ShieldAbsorbsObstacles, UnshieldedHitCostsOneLife, NoContactNoChange, CollideScore |
| `Simulation.Frame` | script.js:63-71 | no contract; specifies Runner.Game.GameLoop; properties in Simulation.FramePreservesValid, FrameLives |
| `Simulation.Outcome` | script.js:63-78 | no contract; specifies the result of Runner.Game.GameLoop; properties in Simulation.OutcomeMatchesRunning |
| `Simulation.Run` | script.js:63-79 | no contract; the repeated frame loop; properties in Simulation.RunPreservesValid, RunLivesNonIncreasing, GameOverIsFinal |
| `Simulation.PressJump` | script.js:217-221 | no contract; specifies Runner.Game.Jump; properties in Simulation.JumpGuard, JumpIdempotent, JumpAcceptedWhileSliding |
| `Simulation.PressSlide` | script.js:245-249 | no contract; specifies Runner.Game.Slide; properties in Simulation.SlideGuard |
| `Simulation.HitEffect` | script.js:194-204 | a hit takes exactly one life, zeroes the combo, sets a 1000 ms shield, leaves the score alone, and stops the game exactly when no life is left |
| `Simulation.CollectEffect` | script.js:206-215 | a coin adds 10 + 2·combo to the score and changes nothing else; a shield item sets 5000 ms of shield and changes nothing else |
| `Simulation.CollideRemovesExactlyTouching` | script.js:165-187 | after the collision pass an obstacle or item remains exactly when it was there and does not touch the player |
| `Simulation.ShieldAbsorbsObstacles` | script.js:168-177 | with the shield up, touching obstacles change neither lives, combo nor the running flag |
| `Simulation.UnshieldedHitCostsOneLife` | script.js:168-177 | with the shield spent, touching obstacles cost exactly one life and the combo however many touch, and the game keeps running exactly when a life is left |
| `Simulation.NoContactNoChange` | script.js:165-187 | when nothing touches the player, the collision pass leaves the state record unchanged |
| `Simulation.CollideScore` | script.js:179-186 | the score grows by the number of touching coins times 10 + 2·combo, at the combo left by the obstacle pass, and never falls |
| `Simulation.MoveEffect` | script.js:136-162 | the move step adds the culled obstacles to the combo, in each container keeps exactly the moved elements that were not past the width, and changes no field of the record but combo and shield |
| `Simulation.MoveDecaysShield` | script.js:157-162 | the move step lowers a positive shield by 16 ms and leaves a spent one alone |
| `Simulation.FramePreservesValid` | script.js:63-79 | a frame keeps lives within 0..3, score and combo non-negative, a life in every running game, and each container holding its own kind |
| `Simulation.FrameLives` | script.js:63-79 | after a frame of a running game, it runs exactly when a life is left; lives fall by at most 2, and the score never falls |
| `Simulation.OutcomeMatchesRunning` | script.js:74-78 | the loop asks for another frame exactly when the game still runs, and ends the game exactly when lives reached 0 |
| `Simulation.AttritionNeverEndsGame` | script.js:85-87 | the difficulty step never stops a running game and never takes its lives below 1 |
| `Simulation.RunPreservesValid` | script.js:63-79 | any sequence of frames keeps the invariant, so lives are never negative |
| `Simulation.RunLivesNonIncreasing` | script.js:63-79 | lives never increase over any sequence of frames |
| `Simulation.GameOverIsFinal` | script.js:65 | once the game is stopped, no sequence of frames changes anything |
| `Simulation.JumpIdempotent` | script.js:219-221 | a second jump press right after the first changes nothing |
| `Simulation.JumpGuard` | script.js:217-221 | a jump press sets the jumping flag exactly when the game runs or a jump is already in progress, and changes nothing else |
| `Simulation.SlideGuard` | script.js:245-249 | a slide press does nothing while stopped, sliding or jumping, and otherwise only sets the sliding flag |
| `Simulation.JumpAcceptedWhileSliding` | script.js:219 | a jump pressed during a slide is accepted, leaving both flags set |
| `Simulation.ObstaclePassClosedForm` | script.js:168-177 | the obstacle pass hits exactly once, at the first touching obstacle, when the shield is spent, because the hit's 1000 ms shield absorbs the rest; with the shield up it changes nothing |
| `Simulation.ItemPassFrame` | script.js:179-186 | the item pass changes only the score and the shield |
| `Simulation.ItemPassScore` | script.js:179-186 | the item pass adds the touching coins times 10 + 2·combo to the score |
| `Simulation.ItemPassShield` | script.js:179-186 | the item pass leaves a 5000 ms shield exactly when a shield item touches, and otherwise keeps the shield |
| `Simulation.ItemPassClosedForm` | script.js:179-186 | the whole effect of the item pass: coins pay at the unchanged combo, any touching shield item sets 5000 ms, nothing else changes |
| `Simulation.CollideClosedForm` | script.js:165-187 | the record after the collision pass, stated without iteration: at most one hit from the obstacles, then the item effects at the combo that hit leaves |
| `Simulation.ObstaclePassStep` | script.js:168-177 | the obstacle pass over one more obstacle applies a hit only if that obstacle touches and the shield is spent, and keeps it only if it does not touch |
| `Simulation.ItemPassStep` | script.js:179-186 | the item pass over one more item collects it exactly when it touches, and keeps it only if it does not touch |
| `Runner.Game.constructor` | script.js:3-29 | a new object holds the initial record and empty containers |
| `Runner.Game.StartGame` | script.js:40-61 | the object is left holding the started scene for `now` |
| `Runner.Game.GameLoop` | script.js:63-79 | the scene after the call is one frame of the old scene (a stopped game is untouched); the outcome is another frame exactly while the game still runs; the invariant is kept |
| `Runner.Game.UpdateDifficulty` | script.js:81-88 | the record becomes the difficulty step for `now`, and the containers are unchanged |
| `Runner.Game.GenerateObstacles` | script.js:90-112 | when the obstacle gate is open, one obstacle of the drawn variant is appended at offset 0 and the gate's clock becomes now; otherwise nothing changes |
| `Runner.Game.GenerateItems` | script.js:114-134 | when the item gate is open, one coin or shield item is appended at offset 0 and the drawn height, and the gate's clock becomes now; otherwise nothing changes |
| `Runner.Game.UpdateGameElements` | script.js:136-163 | the object is left holding exactly the move step's scene: elements scrolled and culled, combo increased by the culled obstacles, shield decayed |
| `Runner.Game.Scroll` | script.js:138-155 | its loop over one container returns the scrolled container and the number of elements culled from it |
| `Runner.Game.CheckCollisions` | script.js:165-187 | the object is left holding exactly the collision pass's scene: touching elements applied and removed, all others kept in order |
| `Runner.Game.HitObstacles` | script.js:168-177 | its loop leaves the obstacle pass's record and the obstacles that did not touch, and the items untouched |
| `Runner.Game.CollectItems` | script.js:179-186 | its loop leaves the item pass's record and the items that did not touch, and the obstacles untouched |
| `Runner.Game.HandleCollision` | script.js:194-204 | one life and the combo are lost, a 1000 ms shield is set, the score is kept, and the game stops exactly when no life is left |
| `Runner.Game.CollectItem` | script.js:206-215 | a coin adds 10 + 2·combo points, a shield item sets 5000 ms of shield, and nothing else changes |
| `Runner.Game.Jump` | script.js:217-221 | the press is accepted exactly when the game runs and no jump is in progress, and then only the jumping flag is set |
| `Runner.Game.JumpTick` | script.js:223-238 | the animation advances by one step, and the tick that lands clears the jumping flag |
| `Runner.Game.Slide` | script.js:245-252 | the press is accepted exactly when the game runs and is neither sliding nor jumping, and then only the sliding flag is set |
| `Runner.Game.SlideEnd` | script.js:253-257 | the timeout clears the sliding flag and changes nothing else |

## Left out

- Rendering and the page are not modelled: element creation, classes, styles, box shadows, the score,
  lives and combo display, and the start screen and the final alert of `gameOver`. The model tells
  the caller to end the game through `LoopOutcome.GameOver` instead.
- Scheduling is not modelled: `requestAnimationFrame`, `setInterval`, `setTimeout` and the event
  listeners. The frame loop, the 20 ms jump ticks and the one-second slide timeout are calls that
  the environment makes. The model does not fix when these calls happen.
- `Date.now()`, `Math.random()`, `window.innerWidth` and `getBoundingClientRect` are not modelled.
  They are parameters: the clock, the random draws, the screen width, the player's box and a
  layout function from an element to its box. The player's box already reflects the jump height and
  the reduced slide height, because those affect only styles.
- Floating point is not modelled. Times are integer milliseconds, and speeds and offsets are integer
  half-pixels. The shield counts down from 1000 or 5000 ms in steps of 16 ms, where the source
  counts down from 1 or 5 in steps of 0.016. The lemmas relate each rule to the source's expression
  over exact reals, not over IEEE doubles.
- `Rules.CoinReward`: gives exactly `10 + 2·combo`. Rounding of `10 * (1 + combo * 0.2)` in doubles
  could differ for some large combo.
- One clock reading serves the whole frame. The source calls `Date.now()` separately in
  `updateDifficulty`, `generateObstacles` and `generateItems`. The model gives all three the same
  millisecond, so the attrition test and the two spawn gates never see different times, and a
  spawn stores exactly the time the difficulty step used.
- One layout function serves a whole run of frames, while the screen width may change from frame
  to frame. A window resized between frames could move an element's box; such a run cannot be
  expressed by `Simulation.Run`. A single frame takes its layout as a parameter.
- The item height `50 + Math.random() * 150` is an unconstrained integer parameter. Only the layout
  function interprets it.
- `start_Game`, which calls the constructor again on the live object, is not modelled. It is about
  object identity and listeners, not game rules. `StartGame` is the restart.
- The constructor starts with empty containers. This assumes the page's containers hold no elements
  before the first start.
