/** The game's numeric rules in integer units: difficulty, spawn gates, coin reward and shield decay.
    Times are milliseconds; speeds and offsets are half-pixels, so that the source's steps of
    0.5 px per frame stay integral. Every rule whose unit or arithmetic differs from the source's
    (speed, attrition window, obstacle gate, coin reward, shield) is related by a lemma to the
    source's expression evaluated over exact reals; the item gate compares integer milliseconds
    exactly as the source does. */
module Rules {

  /** One difficulty step every 30 seconds. */
  const StepMs: int := 30000

  /** Speed in half-pixels per frame after `elapsed` ms: 5 px plus 0.5 px per full 30 s. */
  function Speed(elapsed: int): (v: int)
    ensures elapsed >= 0 ==> v >= 10
  {
    10 + elapsed / StepMs
  }

  /** Speed grows with elapsed time and never falls back. */
  lemma SpeedMonotone(e1: int, e2: int)
    requires e1 <= e2
    ensures Speed(e1) <= Speed(e2)
  {
  }

  /** The speed agrees with `5 + floor(elapsed / 30000) * 0.5`, evaluated exactly. */
  lemma SpeedMatchesSource(elapsed: int)
    ensures Speed(elapsed) as real / 2.0 == 5.0 + ((elapsed as real / 30000.0).Floor as real) * 0.5
  {
    var q := elapsed / StepMs;
    var r := elapsed % StepMs;
    assert elapsed == StepMs * q + r && 0 <= r < StepMs;
    var x := elapsed as real / 30000.0;
    assert x == q as real + r as real / 30000.0;
    assert q as real <= x < q as real + 1.0;
    assert x.Floor == q;
  }

  /** After 65 s the speed is 6 px per frame. */
  lemma SpeedAfter65Seconds()
    ensures Speed(65000) == 12
  {
  }

  /** JavaScript's truncation of a real toward zero. */
  function Trunc(x: real): int {
    if x >= 0.0 then x.Floor else -((-x).Floor)
  }

  /** JavaScript's `%` on numbers: the remainder takes the sign of the dividend. */
  function JsRemainder(x: real, y: real): real
    requires y > 0.0
  {
    x - y * Trunc(x / y) as real
  }

  /** The attrition window: the last 3 s of every 60 s. */
  predicate InAttritionWindow(elapsed: int) {
    elapsed >= 0 && elapsed % 60000 > 57000
  }

  /** The window is exactly where `(elapsed / 30000) % 2 > 1.9` holds, evaluated exactly. */
  lemma AttritionMatchesSource(elapsed: int)
    ensures InAttritionWindow(elapsed) <==> JsRemainder(elapsed as real / 30000.0, 2.0) > 1.9
  {
    var x := elapsed as real / 30000.0;
    if elapsed >= 0 {
      var q := elapsed / 60000;
      var r := elapsed % 60000;
      assert elapsed == 60000 * q + r && 0 <= r < 60000;
      assert x / 2.0 == q as real + r as real / 60000.0;
      assert q as real <= x / 2.0 < q as real + 1.0;
      assert Trunc(x / 2.0) == q;
      assert JsRemainder(x, 2.0) == r as real / 30000.0;
    } else {
      var n := -elapsed;
      var q := n / 60000;
      var r := n % 60000;
      assert n == 60000 * q + r && 0 <= r < 60000;
      assert -(x / 2.0) == q as real + r as real / 60000.0;
      assert q as real <= -(x / 2.0) < q as real + 1.0;
      assert Trunc(x / 2.0) == -q;
      assert JsRemainder(x, 2.0) == -(r as real / 30000.0);
    }
  }

  /** Lives after the attrition rule at `elapsed` ms: one life is lost inside the window,
      but only while more than one is left. */
  function Attrited(lives: int, elapsed: int): (r: int)
    ensures r == lives || (InAttritionWindow(elapsed) && lives > 1 && r == lives - 1)
    ensures lives >= 1 ==> r >= 1
    ensures !InAttritionWindow(elapsed) ==> r == lives
    ensures InAttritionWindow(elapsed) && lives > 1 ==> r == lives - 1
  {
    if InAttritionWindow(elapsed) && lives > 1 then lives - 1 else lives
  }

  /** Lives after the rule is applied once per frame at each of the given times. */
  function AttritedAll(lives: int, times: seq<int>): int
    decreases |times|
  {
    if times == [] then lives else Attrited(AttritedAll(lives, times[..|times| - 1]), times[|times| - 1])
  }

  /** The rule fires on EVERY frame inside the window: n frames there drain n lives, down to 1. */
  lemma {:induction false} AttritionEveryFrame(lives: int, times: seq<int>)
    requires lives >= 1
    requires forall i :: 0 <= i < |times| ==> InAttritionWindow(times[i])
    ensures AttritedAll(lives, times) == if lives - |times| >= 1 then lives - |times| else 1
  {
    if times != [] {
      AttritionEveryFrame(lives, times[..|times| - 1]);
    }
  }

  /** The obstacle gate: more than `1500 / (1 + score / 500) * jitter / 1000` ms have passed since
      the last obstacle, where `jitter` is the random factor in permille. Cleared of division. */
  predicate ObstacleDue(sinceLast: int, score: int, jitter: int) {
    sinceLast * (500 + score) * 1000 > 750000 * jitter
  }

  /** The integer gate is the source's comparison evaluated exactly, for any non-negative score. */
  lemma ObstacleDueMatchesSource(sinceLast: int, score: int, jitter: int)
    requires score >= 0
    ensures ObstacleDue(sinceLast, score, jitter) <==>
      sinceLast as real > (1500.0 / (1.0 + score as real / 500.0)) * (jitter as real / 1000.0)
  {
    var d := 500.0 + score as real;
    assert 1.0 + score as real / 500.0 == d / 500.0;
    assert 1500.0 / (d / 500.0) == 750000.0 / d;
    var bound := (750000.0 / d) * (jitter as real / 1000.0);
    assert bound == (750000 * jitter) as real / (1000.0 * d);
    var lhs := sinceLast * (500 + score) * 1000;
    assert lhs as real == sinceLast as real * (1000.0 * d);
    assert sinceLast as real > bound <==> sinceLast as real * (1000.0 * d) > (750000 * jitter) as real;
  }

  /** A higher score shortens the interval: a gate open at some score stays open at any higher one. */
  lemma ObstacleGateWidensWithScore(sinceLast: int, s1: int, s2: int, jitter: int)
    requires 0 <= s1 <= s2 && jitter >= 0
    requires ObstacleDue(sinceLast, s1, jitter)
    ensures ObstacleDue(sinceLast, s2, jitter)
  {
    assert sinceLast * (500 + s1) > 0;
    assert sinceLast > 0;
    assert sinceLast * (500 + s2) >= sinceLast * (500 + s1);
  }

  /** The interval has no lower bound: however short the time since the last obstacle, a high
      enough score (750 times the jitter) opens the gate. */
  lemma ObstacleGateUnbounded(sinceLast: int, jitter: int)
    requires sinceLast >= 1 && jitter >= 0
    ensures ObstacleDue(sinceLast, 750 * jitter, jitter)
  {
    assert sinceLast * (500 + 750 * jitter) >= 500 + 750 * jitter;
  }

  /** With jitter in [800, 1200] permille, the gate opens after at most 1.8 s, whatever the score,
      and at score 0 it stays shut for the first 1.2 s. */
  lemma ObstacleIntervalBounds(sinceLast: int, score: int, jitter: int)
    requires score >= 0 && 800 <= jitter <= 1200
    ensures sinceLast > 1800 ==> ObstacleDue(sinceLast, score, jitter)
    ensures sinceLast <= 1200 ==> !ObstacleDue(sinceLast, 0, jitter)
  {
    if sinceLast > 1800 {
      assert sinceLast * (500 + score) >= sinceLast * 500;
      assert sinceLast * (500 + score) * 1000 >= sinceLast * 500000;
    }
  }

  /** Items come at most every 3 s, without jitter. */
  const ItemIntervalMs: int := 3000

  /** The item gate: more than 3 s since the last item. */
  predicate ItemDue(sinceLast: int) {
    sinceLast > ItemIntervalMs
  }

  /** Points for one coin at the given combo. */
  function CoinReward(combo: int): (r: int)
    ensures combo >= 0 ==> r >= 10
  {
    10 + 2 * combo
  }

  /** The reward agrees with `floor(10 * (1 + combo * 0.2))`, evaluated exactly. */
  lemma CoinRewardMatchesSource(combo: int)
    ensures CoinReward(combo) == (10.0 * (1.0 + combo as real * 0.2)).Floor
  {
    assert 10.0 * (1.0 + combo as real * 0.2) == (10 + 2 * combo) as real;
  }

  /** A coin at combo 3 is worth 16 points. */
  lemma CoinRewardAtCombo3()
    ensures CoinReward(3) == 16
  {
  }

  /** Shield set by a hit: 1 second. */
  const HitShieldMs: int := 1000
  /** Shield set by a shield item: 5 seconds. */
  const ItemShieldMs: int := 5000
  /** The shield loses 16 ms per frame. */
  const ShieldDecayMs: int := 16

  /** One frame of shield decay: a positive shield loses 16 ms, a spent one stays as it is. */
  function DecayShield(t: int): (r: int)
    ensures t > 0 ==> r == t - ShieldDecayMs
    ensures t <= 0 ==> r == t
  {
    if t > 0 then t - ShieldDecayMs else t
  }

  /** In the source's unit, seconds, the shield is set to 1 by a hit and to 5 by a shield item, and
      a frame subtracts 16/1000 from a positive shield: the millisecond rules are these, times 1000. */
  lemma ShieldMatchesSource(t: int)
    ensures HitShieldMs as real / 1000.0 == 1.0 && ItemShieldMs as real / 1000.0 == 5.0
    ensures var secs := t as real / 1000.0;
      DecayShield(t) as real / 1000.0 == if secs > 0.0 then secs - 16.0 / 1000.0 else secs
  {
    assert t as real / 1000.0 > 0.0 <==> t > 0;
  }

  /** Shield left after k frames. */
  function DecayedFor(t: int, k: nat): int {
    if k == 0 then t else DecayShield(DecayedFor(t, k - 1))
  }

  /** Closed form of k frames of decay: minus 16 per frame until the first frame at which
      it is no longer positive, then constant. */
  lemma {:induction false} DecayedForClosedForm(t: int, k: nat)
    requires t > 0
    ensures DecayedFor(t, k) == t - ShieldDecayMs * (if k < (t + 15) / 16 then k else (t + 15) / 16)
  {
    var n := (t + 15) / 16;
    assert 16 * n >= t && 16 * (n - 1) < t;
    if k > 0 {
      DecayedForClosedForm(t, k - 1);
    }
  }

  /** A shield of t ms protects for exactly the frames k with 16·k < t. */
  lemma ShieldLasts(t: int, k: nat)
    requires t > 0
    ensures DecayedFor(t, k) > 0 <==> ShieldDecayMs * k < t
  {
    DecayedForClosedForm(t, k);
    var n := (t + 15) / 16;
    assert 16 * n >= t && 16 * (n - 1) < t;
  }

  /** A hit shields the next 62 frames; from the 63rd on obstacles hurt again. */
  lemma HitShieldFrames(k: nat)
    ensures DecayedFor(HitShieldMs, k) > 0 <==> k < 63
  {
    ShieldLasts(HitShieldMs, k);
  }

  /** A shield item protects for 312 frames. */
  lemma ItemShieldFrames(k: nat)
    ensures DecayedFor(ItemShieldMs, k) > 0 <==> k < 313
  {
    ShieldLasts(ItemShieldMs, k);
  }
}
