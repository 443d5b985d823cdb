/** The game's state record and the per-frame steps as functions from state to state.
    These functions specify the methods of Runner.Game, and the game's promises are proved
    about them: lives stay in 0..3, the game stops exactly when lives run out, combo and
    score follow collisions and culls. */
module Simulation {
  import opened Geometry
  import opened Rules
  import opened Entities

  /** The state record. `speed` is in half-pixels per frame, all times in milliseconds. */
  datatype Session = Session(
    isRunning: bool,
    isJumping: bool,
    isSliding: bool,
    score: int,
    lives: int,
    combo: int,
    speed: int,
    lastObstacleTime: int,
    lastItemTime: int,
    shieldTime: int,
    gameStartTime: int)

  /** The state record together with the two containers of elements. */
  datatype Scene = Scene(state: Session, obstacles: seq<Entity>, items: seq<Entity>)

  /** What the environment supplies to one frame: the clock, the random draws (jitter in
      permille, obstacle variant, item kind, item height), the screen width in pixels and the
      player's box. */
  datatype FrameInput = FrameInput(
    now: int,
    jitter: int,
    high: bool,
    coin: bool,
    itemBottom: int,
    screenWidth: int,
    player: Box)

  /** What the frame loop does after one frame. */
  datatype LoopOutcome = Halted | NextFrame | GameOver

  const InitialLives: int := 3
  const BaseSpeed: int := 10

  /** The invariant every reachable scene keeps. */
  predicate Valid(sc: Scene) {
    var s := sc.state;
    0 <= s.lives <= InitialLives && s.score >= 0 && s.combo >= 0 &&
    (s.isRunning ==> s.lives >= 1) &&
    AllObstacles(sc.obstacles) && AllItems(sc.items)
  }

  /** The record a new game object holds before the first start. */
  function Initial(): (s: Session)
    ensures !s.isRunning && s.lives == InitialLives && s.score == 0 && s.shieldTime == 0
  {
    Session(false, false, false, 0, InitialLives, 0, BaseSpeed, 0, 0, 0, 0)
  }

  /** Starting a game: a clean running record whose clock starts now, and empty containers. */
  function Start(now: int): (sc: Scene)
    ensures Valid(sc)
    ensures sc.state.isRunning && !sc.state.isJumping && !sc.state.isSliding
    ensures sc.state.score == 0 && sc.state.lives == 3 && sc.state.combo == 0
    ensures sc.state.speed == 10 && sc.state.shieldTime == 0
    ensures sc.state.lastObstacleTime == 0 && sc.state.lastItemTime == 0 && sc.state.gameStartTime == now
    ensures sc.obstacles == [] && sc.items == []
  {
    Scene(Session(true, false, false, 0, InitialLives, 0, BaseSpeed, 0, 0, 0, now), [], [])
  }

  /** Speed and life attrition from the time elapsed since the start. */
  function Difficulty(s: Session, now: int): (r: Session)
    ensures r == s.(speed := r.speed, lives := r.lives)
    ensures r.speed == Speed(now - s.gameStartTime)
    ensures r.lives == Attrited(s.lives, now - s.gameStartTime)
  {
    var elapsed := now - s.gameStartTime;
    s.(speed := Speed(elapsed), lives := Attrited(s.lives, elapsed))
  }

  /** The obstacle spawn gate: a High or Low obstacle at the right edge, and the gate's clock reset. */
  function SpawnObstacle(sc: Scene, now: int, jitter: int, high: bool): Scene {
    if ObstacleDue(now - sc.state.lastObstacleTime, sc.state.score, jitter) then
      Scene(sc.state.(lastObstacleTime := now),
            sc.obstacles + [Obstacle(if high then High else Low, 0)], sc.items)
    else sc
  }

  /** The item spawn gate: a coin or a shield at the right edge and the given height. */
  function SpawnItem(sc: Scene, now: int, coin: bool, bottom: int): Scene {
    if ItemDue(now - sc.state.lastItemTime) then
      Scene(sc.state.(lastItemTime := now),
            sc.obstacles, sc.items + [Item(if coin then Coin else ShieldItem, 0, bottom)])
    else sc
  }

  /** Moving every element by the current speed, dropping the ones that were already off screen,
      counting dropped obstacles into combo, and decaying the shield. */
  function Move(sc: Scene, screenWidth: int): Scene {
    var limit := 2 * screenWidth;
    var s := sc.state;
    Scene(s.(combo := s.combo + Passed(sc.obstacles, limit), shieldTime := DecayShield(s.shieldTime)),
          Advance(sc.obstacles, s.speed, limit),
          Advance(sc.items, s.speed, limit))
  }

  /** The effect of one unshielded obstacle hit. */
  function Hit(s: Session): Session {
    s.(lives := s.lives - 1, combo := 0, shieldTime := HitShieldMs,
       isRunning := s.isRunning && s.lives - 1 > 0)
  }

  /** The effect of collecting one element of the item container. */
  function Collect(s: Session, item: Entity): Session {
    match item
    case Item(Coin, _, _) => s.(score := s.score + CoinReward(s.combo))
    case Item(ShieldItem, _, _) => s.(shieldTime := ItemShieldMs)
    case Obstacle(_, _) => s
  }

  /** The record after the obstacle pass, one obstacle at a time: a touching obstacle hits
      while the shield is spent. */
  function ObstaclePass(s: Session, obstacles: seq<Entity>, player: Box, layout: Layout): Session
    decreases |obstacles|
  {
    if obstacles == [] then s
    else
      var prev := ObstaclePass(s, obstacles[..|obstacles| - 1], player, layout);
      if IsColliding(player, layout(obstacles[|obstacles| - 1])) && prev.shieldTime <= 0 then Hit(prev) else prev
  }

  /** The record after the item pass, one item at a time: every touching item is collected. */
  function ItemPass(s: Session, items: seq<Entity>, player: Box, layout: Layout): Session
    decreases |items|
  {
    if items == [] then s
    else
      var prev := ItemPass(s, items[..|items| - 1], player, layout);
      if IsColliding(player, layout(items[|items| - 1])) then Collect(prev, items[|items| - 1]) else prev
  }

  /** The collision pass: touching elements take effect and are removed, the rest stay. */
  function Collide(sc: Scene, player: Box, layout: Layout): Scene {
    var s := ObstaclePass(sc.state, sc.obstacles, player, layout);
    Scene(ItemPass(s, sc.items, player, layout),
          Survivors(sc.obstacles, player, layout),
          Survivors(sc.items, player, layout))
  }

  /** One frame of the loop; a stopped game does nothing. */
  function Frame(sc: Scene, input: FrameInput, layout: Layout): Scene {
    if !sc.state.isRunning then sc
    else
      var d := Scene(Difficulty(sc.state, input.now), sc.obstacles, sc.items);
      var o := SpawnObstacle(d, input.now, input.jitter, input.high);
      var i := SpawnItem(o, input.now, input.coin, input.itemBottom);
      var m := Move(i, input.screenWidth);
      Collide(m, input.player, layout)
  }

  /** What the loop schedules after a frame that started from `before`. */
  function Outcome(before: Scene, after: Scene): LoopOutcome {
    if !before.state.isRunning then Halted
    else if after.state.lives > 0 then NextFrame
    else GameOver
  }

  /** A sequence of frames. */
  function Run(sc: Scene, inputs: seq<FrameInput>, layout: Layout): Scene
    decreases |inputs|
  {
    if inputs == [] then sc else Frame(Run(sc, inputs[..|inputs| - 1], layout), inputs[|inputs| - 1], layout)
  }

  /** Player input: a jump is accepted only while running and not already jumping. */
  function PressJump(s: Session): Session {
    if !s.isRunning || s.isJumping then s else s.(isJumping := true)
  }

  /** Player input: a slide is accepted only while running, not sliding and not jumping. */
  function PressSlide(s: Session): Session {
    if !s.isRunning || s.isSliding || s.isJumping then s else s.(isSliding := true)
  }

  // ---------------------------------------------------------------------------------------------
  // Collisions

  /** The obstacle pass in closed form: one hit if any obstacle touches and the shield was spent
      (the hit's own shield absorbs the rest), otherwise nothing. */
  lemma {:induction false} ObstaclePassClosedForm(s: Session, es: seq<Entity>, player: Box, layout: Layout)
    ensures ObstaclePass(s, es, player, layout) ==
      if Hits(es, player, layout) > 0 && s.shieldTime <= 0 then Hit(s) else s
    decreases |es|
  {
    if es != [] {
      ObstaclePassClosedForm(s, es[..|es| - 1], player, layout);
    }
  }

  /** The item pass changes only the score and the shield. */
  lemma {:induction false} ItemPassFrame(s: Session, es: seq<Entity>, player: Box, layout: Layout)
    ensures ItemPass(s, es, player, layout) ==
      s.(score := ItemPass(s, es, player, layout).score, shieldTime := ItemPass(s, es, player, layout).shieldTime)
    decreases |es|
  {
    if es != [] {
      ItemPassFrame(s, es[..|es| - 1], player, layout);
    }
  }

  /** Every touching coin pays at the combo the pass started with, which the pass never changes. */
  lemma {:induction false} ItemPassScore(s: Session, es: seq<Entity>, player: Box, layout: Layout)
    ensures ItemPass(s, es, player, layout).score == s.score + CoinHits(es, player, layout) * CoinReward(s.combo)
    decreases |es|
  {
    if es != [] {
      var init := es[..|es| - 1];
      ItemPassScore(s, init, player, layout);
      ItemPassFrame(s, init, player, layout);
      var c := CoinHits(init, player, layout);
      assert (c + 1) * CoinReward(s.combo) == c * CoinReward(s.combo) + CoinReward(s.combo);
    }
  }

  /** A touching shield item leaves the shield at 5 s, whatever the order of the items;
      otherwise the pass leaves the shield alone. */
  lemma {:induction false} ItemPassShield(s: Session, es: seq<Entity>, player: Box, layout: Layout)
    ensures ItemPass(s, es, player, layout).shieldTime ==
      if ShieldHit(es, player, layout) then ItemShieldMs else s.shieldTime
    decreases |es|
  {
    if es != [] {
      var init := es[..|es| - 1];
      ItemPassShield(s, init, player, layout);
      if ShieldHit(init, player, layout) {
        var i :| 0 <= i < |init| && init[i].Item? && init[i].kind == ShieldItem && IsColliding(player, layout(init[i]));
        assert es[i] == init[i];
      }
      if ShieldHit(es, player, layout) {
        var i :| 0 <= i < |es| && es[i].Item? && es[i].kind == ShieldItem && IsColliding(player, layout(es[i]));
        if i < |init| {
          assert init[i] == es[i];
        }
      }
    }
  }

  /** The item pass in closed form: the counts of touching coins and shield items decide it. */
  lemma ItemPassClosedForm(s: Session, es: seq<Entity>, player: Box, layout: Layout)
    ensures ItemPass(s, es, player, layout) ==
      s.(score := s.score + CoinHits(es, player, layout) * CoinReward(s.combo),
         shieldTime := if ShieldHit(es, player, layout) then ItemShieldMs else s.shieldTime)
  {
    ItemPassFrame(s, es, player, layout);
    ItemPassScore(s, es, player, layout);
    ItemPassShield(s, es, player, layout);
  }

  /** A hit costs exactly one life, clears the combo, grants a 1 s shield, leaves the score alone,
      and stops the game exactly when no life is left. */
  lemma HitEffect(s: Session)
    ensures Hit(s).lives == s.lives - 1 && Hit(s).combo == 0 && Hit(s).shieldTime == 1000
    ensures Hit(s).score == s.score
    ensures Hit(s).isRunning <==> s.isRunning && s.lives - 1 > 0
    ensures Hit(s) == s.(lives := s.lives - 1, combo := 0, shieldTime := 1000, isRunning := Hit(s).isRunning)
  {
  }

  /** A coin pays 10 + 2 * combo and touches nothing else; a shield item sets the shield to 5 s and
      touches nothing else. */
  lemma CollectEffect(s: Session, item: Entity)
    ensures item.Item? && item.kind == Coin ==> Collect(s, item) == s.(score := s.score + 10 + 2 * s.combo)
    ensures item.Item? && item.kind == ShieldItem ==> Collect(s, item) == s.(shieldTime := 5000)
    ensures item.Obstacle? ==> Collect(s, item) == s
  {
  }

  /** The collision pass in closed form: the counts of touching obstacles, coins and shield items
      decide the new record. */
  lemma CollideClosedForm(sc: Scene, player: Box, layout: Layout)
    ensures var s := if Hits(sc.obstacles, player, layout) > 0 && sc.state.shieldTime <= 0 then Hit(sc.state) else sc.state;
      Collide(sc, player, layout).state ==
        s.(score := s.score + CoinHits(sc.items, player, layout) * CoinReward(s.combo),
           shieldTime := if ShieldHit(sc.items, player, layout) then ItemShieldMs else s.shieldTime)
  {
    ObstaclePassClosedForm(sc.state, sc.obstacles, player, layout);
    ItemPassClosedForm(ObstaclePass(sc.state, sc.obstacles, player, layout), sc.items, player, layout);
  }

  /** In the collision pass every touching element goes and every other one stays. */
  lemma CollideRemovesExactlyTouching(sc: Scene, player: Box, layout: Layout, e: Entity)
    ensures e in Collide(sc, player, layout).obstacles <==> e in sc.obstacles && !IsColliding(player, layout(e))
    ensures e in Collide(sc, player, layout).items <==> e in sc.items && !IsColliding(player, layout(e))
  {
    SurvivorsMember(sc.obstacles, player, layout, e);
    SurvivorsMember(sc.items, player, layout, e);
  }

  /** While the shield is up, touching obstacles are removed without costing anything. */
  lemma ShieldAbsorbsObstacles(sc: Scene, player: Box, layout: Layout)
    requires sc.state.shieldTime > 0
    ensures var r := Collide(sc, player, layout).state;
      r.lives == sc.state.lives && r.combo == sc.state.combo && r.isRunning == sc.state.isRunning
  {
    CollideClosedForm(sc, player, layout);
  }

  /** Without a shield, touching an obstacle costs exactly one life and the combo, however many
      obstacles touch; coins touched in the same pass then pay at combo 0. */
  lemma UnshieldedHitCostsOneLife(sc: Scene, player: Box, layout: Layout, i: int)
    requires sc.state.shieldTime <= 0
    requires 0 <= i < |sc.obstacles| && IsColliding(player, layout(sc.obstacles[i]))
    ensures var r := Collide(sc, player, layout).state;
      r.lives == sc.state.lives - 1 && r.combo == 0 &&
      r.score == sc.state.score + 10 * CoinHits(sc.items, player, layout) &&
      (r.isRunning <==> sc.state.isRunning && r.lives > 0)
  {
    HitsPositive(sc.obstacles, player, layout);
    CollideClosedForm(sc, player, layout);
  }

  /** Nothing touching the player: the pass changes nothing but what it must not. */
  lemma NoContactNoChange(sc: Scene, player: Box, layout: Layout)
    requires forall i :: 0 <= i < |sc.obstacles| ==> !IsColliding(player, layout(sc.obstacles[i]))
    requires forall i :: 0 <= i < |sc.items| ==> !IsColliding(player, layout(sc.items[i]))
    ensures Collide(sc, player, layout).state == sc.state
  {
    HitsPositive(sc.obstacles, player, layout);
    HitsPositive(sc.items, player, layout);
    CollideClosedForm(sc, player, layout);
  }

  /** Each touching coin pays at the combo left by the obstacle pass; the score never falls. */
  lemma CollideScore(sc: Scene, player: Box, layout: Layout)
    requires sc.state.combo >= 0
    ensures var s := ObstaclePass(sc.state, sc.obstacles, player, layout);
      Collide(sc, player, layout).state.score == sc.state.score + CoinHits(sc.items, player, layout) * (10 + 2 * s.combo)
    ensures Collide(sc, player, layout).state.score >= sc.state.score
  {
    CollideClosedForm(sc, player, layout);
    ObstaclePassClosedForm(sc.state, sc.obstacles, player, layout);
    var s := ObstaclePass(sc.state, sc.obstacles, player, layout);
    assert s.combo >= 0;
    assert CoinHits(sc.items, player, layout) * (10 + 2 * s.combo) >= 0;
  }

  // ---------------------------------------------------------------------------------------------
  // Moving and culling

  /** Scrolling moves every kept element by the speed, drops an element exactly when its offset
      before the move was past the screen width, and adds the dropped obstacles (not items) to the
      combo. Combo and shield are the only fields of the record that change. */
  lemma MoveEffect(sc: Scene, screenWidth: int, e: Entity)
    ensures Move(sc, screenWidth).state ==
      sc.state.(combo := Move(sc, screenWidth).state.combo, shieldTime := Move(sc, screenWidth).state.shieldTime)
    ensures Move(sc, screenWidth).state.combo == sc.state.combo + Passed(sc.obstacles, 2 * screenWidth)
    ensures |Move(sc, screenWidth).items| == |sc.items| - Passed(sc.items, 2 * screenWidth)
    ensures e in Move(sc, screenWidth).obstacles ==>
      exists j :: 0 <= j < |sc.obstacles| && sc.obstacles[j].right <= 2 * screenWidth &&
        e == Moved(sc.obstacles[j], sc.state.speed)
    ensures forall j :: 0 <= j < |sc.obstacles| && sc.obstacles[j].right <= 2 * screenWidth ==>
      Moved(sc.obstacles[j], sc.state.speed) in Move(sc, screenWidth).obstacles
    ensures e in Move(sc, screenWidth).items ==>
      exists j :: 0 <= j < |sc.items| && sc.items[j].right <= 2 * screenWidth &&
        e == Moved(sc.items[j], sc.state.speed)
    ensures forall j :: 0 <= j < |sc.items| && sc.items[j].right <= 2 * screenWidth ==>
      Moved(sc.items[j], sc.state.speed) in Move(sc, screenWidth).items
  {
    var limit := 2 * screenWidth;
    if e in Move(sc, screenWidth).obstacles {
      AdvanceSound(sc.obstacles, sc.state.speed, limit, e);
    }
    forall j | 0 <= j < |sc.obstacles| && sc.obstacles[j].right <= limit
      ensures Moved(sc.obstacles[j], sc.state.speed) in Move(sc, screenWidth).obstacles
    {
      AdvanceComplete(sc.obstacles, sc.state.speed, limit, j);
    }
    if e in Move(sc, screenWidth).items {
      AdvanceSound(sc.items, sc.state.speed, limit, e);
    }
    forall j | 0 <= j < |sc.items| && sc.items[j].right <= limit
      ensures Moved(sc.items[j], sc.state.speed) in Move(sc, screenWidth).items
    {
      AdvanceComplete(sc.items, sc.state.speed, limit, j);
    }
  }

  /** A positive shield loses 16 ms in the move step; a spent one stays put. */
  lemma MoveDecaysShield(sc: Scene, screenWidth: int)
    ensures sc.state.shieldTime > 0 ==> Move(sc, screenWidth).state.shieldTime == sc.state.shieldTime - 16
    ensures sc.state.shieldTime <= 0 ==> Move(sc, screenWidth).state.shieldTime == sc.state.shieldTime
  {
  }

  // ---------------------------------------------------------------------------------------------
  // Whole frames

  /** A frame keeps the invariant: lives within 0..3, never negative, and a running game has a life. */
  lemma FramePreservesValid(sc: Scene, input: FrameInput, layout: Layout)
    requires Valid(sc)
    ensures Valid(Frame(sc, input, layout))
  {
    if sc.state.isRunning {
      var d := Scene(Difficulty(sc.state, input.now), sc.obstacles, sc.items);
      var o := SpawnObstacle(d, input.now, input.jitter, input.high);
      var i := SpawnItem(o, input.now, input.coin, input.itemBottom);
      var m := Move(i, input.screenWidth);
      assert Valid(d);
      assert AllObstacles(o.obstacles);
      assert AllItems(i.items);
      AdvanceKeepsKind(i.obstacles, i.state.speed, 2 * input.screenWidth);
      AdvanceKeepsKind(i.items, i.state.speed, 2 * input.screenWidth);
      assert Valid(m);
      SurvivorsKeepKind(m.obstacles, input.player, layout);
      SurvivorsKeepKind(m.items, input.player, layout);
      CollideScore(m, input.player, layout);
      CollideClosedForm(m, input.player, layout);
    }
  }

  /** After a frame of a running game, the game still runs exactly when a life is left; lives fall
      by at most two (one to attrition, one to a hit) and the score never falls. */
  lemma FrameLives(sc: Scene, input: FrameInput, layout: Layout)
    requires Valid(sc) && sc.state.isRunning
    ensures var r := Frame(sc, input, layout).state;
      (r.isRunning <==> r.lives > 0) &&
      sc.state.lives - 2 <= r.lives <= sc.state.lives &&
      r.score >= sc.state.score
  {
    var d := Scene(Difficulty(sc.state, input.now), sc.obstacles, sc.items);
    var o := SpawnObstacle(d, input.now, input.jitter, input.high);
    var i := SpawnItem(o, input.now, input.coin, input.itemBottom);
    var m := Move(i, input.screenWidth);
    assert m.state.isRunning && m.state.lives >= 1 && m.state.combo >= 0;
    CollideScore(m, input.player, layout);
    CollideClosedForm(m, input.player, layout);
  }

  /** The loop asks for another frame exactly when the game is still running afterwards, and
      reports the end of the game exactly when lives ran out in that frame. */
  lemma OutcomeMatchesRunning(sc: Scene, input: FrameInput, layout: Layout)
    requires Valid(sc) && sc.state.isRunning
    ensures var r := Frame(sc, input, layout);
      (Outcome(sc, r) == NextFrame <==> r.state.isRunning) &&
      (Outcome(sc, r) == GameOver <==> r.state.lives == 0)
  {
    FrameLives(sc, input, layout);
    FramePreservesValid(sc, input, layout);
  }

  /** The game ends only through a hit: attrition alone never stops it. */
  lemma AttritionNeverEndsGame(s: Session, now: int)
    requires s.isRunning && s.lives >= 1
    ensures Difficulty(s, now).lives >= 1 && Difficulty(s, now).isRunning
  {
  }

  /** Any number of frames keeps the invariant. */
  lemma {:induction false} RunPreservesValid(sc: Scene, inputs: seq<FrameInput>, layout: Layout)
    requires Valid(sc)
    ensures Valid(Run(sc, inputs, layout))
    decreases |inputs|
  {
    if inputs != [] {
      RunPreservesValid(sc, inputs[..|inputs| - 1], layout);
      FramePreservesValid(Run(sc, inputs[..|inputs| - 1], layout), inputs[|inputs| - 1], layout);
    }
  }

  /** Lives never increase over any number of frames. */
  lemma {:induction false} RunLivesNonIncreasing(sc: Scene, inputs: seq<FrameInput>, layout: Layout)
    requires Valid(sc)
    ensures Run(sc, inputs, layout).state.lives <= sc.state.lives
    decreases |inputs|
  {
    if inputs != [] {
      var prev := Run(sc, inputs[..|inputs| - 1], layout);
      RunLivesNonIncreasing(sc, inputs[..|inputs| - 1], layout);
      RunPreservesValid(sc, inputs[..|inputs| - 1], layout);
      if prev.state.isRunning {
        FrameLives(prev, inputs[|inputs| - 1], layout);
      }
    }
  }

  /** Game over is final: once stopped, no frame changes anything until the next start. */
  lemma {:induction false} GameOverIsFinal(sc: Scene, inputs: seq<FrameInput>, layout: Layout)
    requires !sc.state.isRunning
    ensures Run(sc, inputs, layout) == sc
    decreases |inputs|
  {
    if inputs != [] {
      GameOverIsFinal(sc, inputs[..|inputs| - 1], layout);
    }
  }

  // ---------------------------------------------------------------------------------------------
  // Player input

  /** Pressing jump twice starts one jump: the second press is ignored. */
  lemma JumpIdempotent(s: Session)
    ensures PressJump(PressJump(s)) == PressJump(s)
  {
  }

  /** A jump is accepted exactly when the game runs and no jump is in progress, and it changes
      nothing but the jumping flag. */
  lemma JumpGuard(s: Session)
    ensures PressJump(s).isJumping
      <==> s.isJumping || s.isRunning
    ensures PressJump(s) == s.(isJumping := PressJump(s).isJumping)
  {
  }

  /** A slide is ignored while jumping, while already sliding and while stopped; otherwise it only
      sets the sliding flag. */
  lemma SlideGuard(s: Session)
    ensures s.isJumping || s.isSliding || !s.isRunning ==> PressSlide(s) == s
    ensures s.isRunning && !s.isSliding && !s.isJumping ==> PressSlide(s) == s.(isSliding := true)
  {
  }

  /** The jump guard does not look at the sliding flag: a jump pressed during a slide is accepted,
      and the two flags are then both set. */
  lemma JumpAcceptedWhileSliding(s: Session)
    requires s.isRunning && !s.isJumping && s.isSliding
    ensures PressJump(s).isJumping && PressJump(s).isSliding
  {
  }

  // ---------------------------------------------------------------------------------------------
  // One element at a time: the steps of the collision pass's loops

  /** The obstacle pass over one more obstacle: it hits only if it touches and the shield is spent,
      and it stays only if it does not touch. */
  lemma {:induction false} ObstaclePassStep(s: Session, es: seq<Entity>, i: int, player: Box, layout: Layout)
    requires 0 <= i < |es|
    ensures var prev := ObstaclePass(s, es[..i], player, layout);
      ObstaclePass(s, es[..i + 1], player, layout) ==
        if IsColliding(player, layout(es[i])) && prev.shieldTime <= 0 then Hit(prev) else prev
    ensures Survivors(es[..i + 1], player, layout) ==
      if IsColliding(player, layout(es[i])) then Survivors(es[..i], player, layout) else Survivors(es[..i], player, layout) + [es[i]]
  {
    assert es[..i + 1][..i] == es[..i];
    assert es[..i + 1][i] == es[i];
  }

  /** The item pass over one more item: it is collected exactly when it touches, and it stays only
      if it does not touch. */
  lemma {:induction false} ItemPassStep(s: Session, es: seq<Entity>, i: int, player: Box, layout: Layout)
    requires 0 <= i < |es|
    ensures var prev := ItemPass(s, es[..i], player, layout);
      ItemPass(s, es[..i + 1], player, layout) ==
        if IsColliding(player, layout(es[i])) then Collect(prev, es[i]) else prev
    ensures Survivors(es[..i + 1], player, layout) ==
      if IsColliding(player, layout(es[i])) then Survivors(es[..i], player, layout) else Survivors(es[..i], player, layout) + [es[i]]
  {
    assert es[..i + 1][..i] == es[..i];
    assert es[..i + 1][i] == es[i];
  }
}
