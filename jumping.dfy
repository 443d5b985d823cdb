/** The jump animation as an explicit two-phase step function: one step per 20 ms timer tick. */
module Jumping {

  datatype Phase = Rising | Falling | Landed

  /** The animation's phase and the player's height above the ground, in pixels. */
  datatype Pose = Pose(phase: Phase, height: int)

  /** Height gained or lost per tick. */
  const StepPx: int := 10
  /** The climb stops on the first tick that ends above this height. */
  const ApexPx: int := 120

  /** Where a jump begins: rising, on the ground. */
  const Takeoff: Pose := Pose(Rising, 0)

  /** The poses an animation started at Takeoff can be in. */
  predicate Reachable(p: Pose) {
    p.height % StepPx == 0 &&
    match p.phase
    case Rising => 0 <= p.height <= ApexPx
    case Falling => StepPx <= p.height <= ApexPx + StepPx
    case Landed => p.height == 0
  }

  /** One tick: climb by 10 and switch to falling once above 120; fall by 10 and land once at
      or below 0. A landed animation has no timer left and does not move. */
  function Step(p: Pose): (q: Pose)
    ensures Reachable(p) ==> Reachable(q)
    ensures p.phase == Rising ==> q.phase != Landed
  {
    match p.phase
    case Rising =>
      if p.height + StepPx > ApexPx then Pose(Falling, p.height + StepPx) else Pose(Rising, p.height + StepPx)
    case Falling =>
      if p.height - StepPx <= 0 then Pose(Landed, 0) else Pose(Falling, p.height - StepPx)
    case Landed => p
  }

  /** The pose after n ticks. */
  function Ticks(p: Pose, n: nat): Pose {
    if n == 0 then p else Step(Ticks(p, n - 1))
  }

  /** The whole trajectory of a jump in closed form: 13 ticks up to 130 px, 13 ticks down to 0. */
  function Trajectory(k: nat): Pose {
    if k < 13 then Pose(Rising, StepPx * k)
    else if k < 26 then Pose(Falling, StepPx * (26 - k))
    else Pose(Landed, 0)
  }

  /** The stepped animation follows the closed-form trajectory tick by tick. */
  lemma {:induction false} TicksFollowTrajectory(k: nat)
    ensures Ticks(Takeoff, k) == Trajectory(k)
  {
    if k > 0 {
      TicksFollowTrajectory(k - 1);
    }
  }

  /** The jump peaks at 130 px after 13 ticks, stays between the ground and the peak, is in the air
      for the first 25 ticks and lands on the 26th. */
  lemma JumpShape(k: nat)
    ensures Ticks(Takeoff, 13) == Pose(Falling, 130)
    ensures 0 <= Ticks(Takeoff, k).height <= 130
    ensures Ticks(Takeoff, k).phase == Landed <==> k >= 26
    ensures Ticks(Takeoff, 26) == Pose(Landed, 0)
  {
    TicksFollowTrajectory(13);
    TicksFollowTrajectory(k);
    TicksFollowTrajectory(26);
  }

  /** Every pose of an animation started at Takeoff is reachable. */
  lemma {:induction false} TicksReachable(p: Pose, n: nat)
    requires Reachable(p)
    ensures Reachable(Ticks(p, n))
  {
    if n > 0 {
      TicksReachable(p, n - 1);
    }
  }
}
