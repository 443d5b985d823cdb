/** The game object: the state record and the two element containers, updated in place by the
    frame loop, the input handlers and the animation timers. Each method is proved to leave the
    scene its specification function in Simulation prescribes. */
module Runner {
  import opened Geometry
  import opened Rules
  import opened Entities
  import opened Jumping
  import opened Simulation

  class Game {
    var state: Session
    var obstacles: seq<Entity>
    var items: seq<Entity>

    ghost function Scene(): Simulation.Scene
      reads this
    {
      Simulation.Scene(state, obstacles, items)
    }

    ghost predicate Valid()
      reads this
    {
      Simulation.Valid(Scene())
    }

    /** A new game object: not running, three lives, empty containers. */
    constructor ()
      ensures state == Initial() && obstacles == [] && items == []
      ensures Valid()
    {
      state := Initial();
      obstacles := [];
      items := [];
    }

    /** Reinitialises the record with the clock started at `now` and empties both containers. */
    method StartGame(now: int)
      modifies this
      ensures Scene() == Start(now)
      ensures Valid()
    {
      state := Session(true, false, false, 0, InitialLives, 0, BaseSpeed, 0, 0, 0, now);
      obstacles := [];
      items := [];
    }

    /** One frame: difficulty, the two spawn gates, scrolling, collisions; then another frame is
        requested while lives are left, or the game ends. A stopped game returns at once. */
    method GameLoop(input: FrameInput, layout: Layout) returns (outcome: LoopOutcome)
      modifies this
      ensures Scene() == Frame(old(Scene()), input, layout)
      ensures outcome == Outcome(old(Scene()), Scene())
      ensures old(Valid()) ==> Valid()
      ensures old(Valid()) && old(state.isRunning) ==> (outcome == NextFrame <==> state.isRunning)
    {
      ghost var before := Scene();
      if !state.isRunning {
        outcome := Halted;
        return;
      }
      UpdateDifficulty(input.now);
      GenerateObstacles(input.now, input.jitter, input.high);
      GenerateItems(input.now, input.coin, input.itemBottom);
      UpdateGameElements(input.screenWidth);
      CheckCollisions(input.player, layout);
      if state.lives > 0 {
        outcome := NextFrame;
      } else {
        outcome := GameOver;
      }
      if Simulation.Valid(before) {
        FramePreservesValid(before, input, layout);
        OutcomeMatchesRunning(before, input, layout);
      }
    }

    /** Speed from the elapsed time, and one life lost per frame inside the attrition window while
        more than one is left. */
    method UpdateDifficulty(now: int)
      modifies this
      ensures state == Difficulty(old(state), now)
      ensures obstacles == old(obstacles) && items == old(items)
    {
      var elapsed := now - state.gameStartTime;
      state := state.(speed := Speed(elapsed));
      if InAttritionWindow(elapsed) && state.lives > 1 {
        state := state.(lives := state.lives - 1);
      }
    }

    /** Adds an obstacle of the drawn variant when the jittered, score-dependent interval has passed. */
    method GenerateObstacles(now: int, jitter: int, high: bool)
      modifies this
      ensures Scene() == SpawnObstacle(old(Scene()), now, jitter, high)
    {
      if ObstacleDue(now - state.lastObstacleTime, state.score, jitter) {
        obstacles := obstacles + [Obstacle(if high then High else Low, 0)];
        state := state.(lastObstacleTime := now);
      }
    }

    /** Adds a coin or a shield item at the drawn height when 3 s have passed since the last one. */
    method GenerateItems(now: int, coin: bool, bottom: int)
      modifies this
      ensures Scene() == SpawnItem(old(Scene()), now, coin, bottom)
    {
      if ItemDue(now - state.lastItemTime) {
        items := items + [Item(if coin then Coin else ShieldItem, 0, bottom)];
        state := state.(lastItemTime := now);
      }
    }

    /** Moves every element by the speed, removes the ones that were already past the screen
        width (each removed obstacle adds one to combo) and decays a positive shield by 16 ms. */
    method UpdateGameElements(screenWidth: int)
      modifies this
      ensures Scene() == Move(old(Scene()), screenWidth)
    {
      var limit := 2 * screenWidth;
      var movedObs, culled := Scroll(obstacles, state.speed, limit);
      var movedItems, _ := Scroll(items, state.speed, limit);
      var shield := state.shieldTime;
      if shield > 0 {
        shield := shield - ShieldDecayMs;
      }
      state := state.(combo := state.combo + culled, shieldTime := shield);
      obstacles := movedObs;
      items := movedItems;
    }

    /** One container's share of a frame of scrolling: every element at or before `limit` moves
        by `speed`, in order, and the ones already past it are dropped and counted. */
    static method Scroll(es: seq<Entity>, speed: int, limit: int) returns (moved: seq<Entity>, culled: nat)
      ensures moved == Advance(es, speed, limit)
      ensures culled == Passed(es, limit)
    {
      moved, culled := [], 0;
      var i := 0;
      while i < |es|
        invariant 0 <= i <= |es|
        invariant moved == Advance(es[..i], speed, limit)
        invariant culled == Passed(es[..i], limit)
      {
        var e := es[i];
        AdvanceStep(es[..i], e, speed, limit);
        if e.right > limit {
          culled := culled + 1;
        } else {
          moved := moved + [Moved(e, speed)];
        }
        assert es[..i + 1] == es[..i] + [e];
        i := i + 1;
      }
      assert es[..i] == es;
    }

    /** Removes every obstacle touching the player, applying a hit for it while the shield is spent;
        then collects and removes every item touching the player. */
    method CheckCollisions(player: Box, layout: Layout)
      modifies this
      ensures Scene() == Collide(old(Scene()), player, layout)
    {
      HitObstacles(player, layout);
      CollectItems(player, layout);
    }

    /** The obstacle half of the collision pass, one obstacle at a time in container order. */
    method HitObstacles(player: Box, layout: Layout)
      modifies this
      ensures state == ObstaclePass(old(state), old(obstacles), player, layout)
      ensures obstacles == Survivors(old(obstacles), player, layout)
      ensures items == old(items)
    {
      var es := obstacles;
      var kept: seq<Entity> := [];
      var i := 0;
      while i < |es|
        invariant 0 <= i <= |es|
        invariant items == old(items)
        invariant kept == Survivors(es[..i], player, layout)
        invariant state == ObstaclePass(old(state), es[..i], player, layout)
      {
        var o := es[i];
        ObstaclePassStep(old(state), es, i, player, layout);
        if IsColliding(player, layout(o)) {
          if state.shieldTime <= 0 {
            HandleCollision();
          }
        } else {
          kept := kept + [o];
        }
        i := i + 1;
      }
      assert es[..i] == es;
      obstacles := kept;
    }

    /** The item half of the collision pass: every touching item is collected and removed. */
    method CollectItems(player: Box, layout: Layout)
      modifies this
      ensures state == ItemPass(old(state), old(items), player, layout)
      ensures items == Survivors(old(items), player, layout)
      ensures obstacles == old(obstacles)
    {
      var es := items;
      var kept: seq<Entity> := [];
      var i := 0;
      while i < |es|
        invariant 0 <= i <= |es|
        invariant obstacles == old(obstacles)
        invariant kept == Survivors(es[..i], player, layout)
        invariant state == ItemPass(old(state), es[..i], player, layout)
      {
        var it := es[i];
        ItemPassStep(old(state), es, i, player, layout);
        if IsColliding(player, layout(it)) {
          CollectItem(it);
        } else {
          kept := kept + [it];
        }
        i := i + 1;
      }
      assert es[..i] == es;
      items := kept;
    }

    /** An unshielded obstacle hit: one life and the combo lost, a 1 s shield, and the game stopped
        once no life is left. */
    method HandleCollision()
      modifies this
      ensures state == Hit(old(state))
      ensures state.lives == old(state).lives - 1 && state.combo == 0 && state.shieldTime == HitShieldMs
      ensures state.score == old(state).score
      ensures state.isRunning <==> old(state).isRunning && state.lives > 0
      ensures obstacles == old(obstacles) && items == old(items)
    {
      state := state.(lives := state.lives - 1, combo := 0, shieldTime := HitShieldMs);
      if state.lives <= 0 {
        state := state.(isRunning := false);
      }
    }

    /** Collecting an item: a coin pays 10 + 2 * combo points, a shield item sets a 5 s shield. */
    method CollectItem(item: Entity)
      modifies this
      ensures state == Collect(old(state), item)
      ensures item.Item? && item.kind == Coin ==> state == old(state).(score := old(state).score + 10 + 2 * old(state).combo)
      ensures item.Item? && item.kind == ShieldItem ==> state == old(state).(shieldTime := ItemShieldMs)
      ensures obstacles == old(obstacles) && items == old(items)
    {
      if item.Item? && item.kind == Coin {
        state := state.(score := state.score + CoinReward(state.combo));
      } else if item.Item? && item.kind == ShieldItem {
        state := state.(shieldTime := ItemShieldMs);
      }
    }

    /** The jump key: ignored while stopped or already jumping; otherwise the jump starts and the
        caller's timer animates it from Takeoff with JumpTick. */
    method Jump() returns (accepted: bool)
      modifies this
      ensures accepted <==> old(state).isRunning && !old(state).isJumping
      ensures state == PressJump(old(state))
      ensures obstacles == old(obstacles) && items == old(items)
      ensures old(Valid()) ==> Valid()
    {
      if !state.isRunning || state.isJumping {
        return false;
      }
      state := state.(isJumping := true);
      accepted := true;
    }

    /** One 20 ms tick of a jump animation; the tick that lands clears the jumping flag. */
    method JumpTick(pose: Pose) returns (next: Pose)
      modifies this
      ensures next == Jumping.Step(pose)
      ensures state == if pose.phase == Falling && next.phase == Landed then old(state).(isJumping := false) else old(state)
      ensures obstacles == old(obstacles) && items == old(items)
      ensures old(Valid()) ==> Valid()
    {
      next := Jumping.Step(pose);
      if pose.phase == Falling && next.phase == Landed {
        state := state.(isJumping := false);
      }
    }

    /** The slide key: ignored while stopped, sliding or jumping; otherwise the slide starts. */
    method Slide() returns (accepted: bool)
      modifies this
      ensures accepted <==> old(state).isRunning && !old(state).isSliding && !old(state).isJumping
      ensures state == PressSlide(old(state))
      ensures obstacles == old(obstacles) && items == old(items)
      ensures old(Valid()) ==> Valid()
    {
      if !state.isRunning || state.isSliding || state.isJumping {
        return false;
      }
      state := state.(isSliding := true);
      accepted := true;
    }

    /** The slide's 1 s timer: the sliding flag is cleared. */
    method SlideEnd()
      modifies this
      ensures state == old(state).(isSliding := false)
      ensures obstacles == old(obstacles) && items == old(items)
      ensures old(Valid()) ==> Valid()
    {
      state := state.(isSliding := false);
    }
  }
}
