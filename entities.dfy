/** Obstacles and items on screen, and the bulk operations a frame applies to them:
    moving and culling, and sorting out the ones that touch the player. */
module Entities {
  import opened Geometry

  datatype Variant = High | Low
  datatype ItemKind = Coin | ShieldItem

  /** An element of one of the two containers. `right` is its distance from the right edge of
      the screen in half-pixels; `bottom` is an item's height above the ground. */
  datatype Entity =
    | Obstacle(variant: Variant, right: int)
    | Item(kind: ItemKind, right: int, bottom: int)

  /** Where the page lays an element out. Elements with the same attributes get the same box. */
  type Layout = Entity -> Box

  predicate AllObstacles(es: seq<Entity>) {
    forall i :: 0 <= i < |es| ==> es[i].Obstacle?
  }

  predicate AllItems(es: seq<Entity>) {
    forall i :: 0 <= i < |es| ==> es[i].Item?
  }

  /** The element moved `d` half-pixels further from the right edge; nothing else about it changes. */
  function Moved(e: Entity, d: int): (m: Entity)
    ensures m.right == e.right + d
    ensures m.Obstacle? == e.Obstacle?
    ensures e.Obstacle? ==> m.variant == e.variant
    ensures e.Item? ==> m.kind == e.kind && m.bottom == e.bottom
  {
    e.(right := e.right + d)
  }

  /** How many elements were already past `limit` before moving. */
  function Passed(es: seq<Entity>, limit: int): (n: nat)
    ensures n <= |es|
  {
    if es == [] then 0
    else Passed(es[..|es| - 1], limit) + (if es[|es| - 1].right > limit then 1 else 0)
  }

  /** One frame of scrolling: every element at or before `limit` moves by `speed`, in order;
      the ones already past `limit` are dropped. */
  function Advance(es: seq<Entity>, speed: int, limit: int): (r: seq<Entity>)
    ensures |r| + Passed(es, limit) == |es|
  {
    if es == [] then []
    else
      var e := es[|es| - 1];
      var init := Advance(es[..|es| - 1], speed, limit);
      if e.right > limit then init else init + [Moved(e, speed)]
  }

  /** Every element left after scrolling is an element that was not past the limit, moved. */
  lemma {:induction false} AdvanceSound(es: seq<Entity>, speed: int, limit: int, m: Entity)
    requires m in Advance(es, speed, limit)
    ensures exists j :: 0 <= j < |es| && es[j].right <= limit && m == Moved(es[j], speed)
  {
    var init := es[..|es| - 1];
    var e := es[|es| - 1];
    if m in Advance(init, speed, limit) {
      AdvanceSound(init, speed, limit, m);
      var j :| 0 <= j < |init| && init[j].right <= limit && m == Moved(init[j], speed);
      assert es[j] == init[j];
    } else {
      assert e.right <= limit && m == Moved(e, speed);
      assert es[|es| - 1] == e;
    }
  }

  /** Every element not past the limit is still there after scrolling, moved. */
  lemma {:induction false} AdvanceComplete(es: seq<Entity>, speed: int, limit: int, j: int)
    requires 0 <= j < |es| && es[j].right <= limit
    ensures Moved(es[j], speed) in Advance(es, speed, limit)
  {
    var init := es[..|es| - 1];
    if j < |es| - 1 {
      assert es[j] == init[j];
      AdvanceComplete(init, speed, limit, j);
    }
  }

  /** Scrolling one more element: it is dropped and counted if already past the limit, and
      otherwise appended, moved. */
  lemma {:induction false} AdvanceStep(es: seq<Entity>, e: Entity, speed: int, limit: int)
    ensures Advance(es + [e], speed, limit) ==
      if e.right > limit then Advance(es, speed, limit) else Advance(es, speed, limit) + [Moved(e, speed)]
    ensures Passed(es + [e], limit) == Passed(es, limit) + (if e.right > limit then 1 else 0)
  {
    assert (es + [e])[..|es|] == es;
    assert (es + [e])[|es|] == e;
  }

  /** Scrolling keeps each container's kind: only obstacles come out of obstacles, only items
      out of items. */
  lemma {:induction false} AdvanceKeepsKind(es: seq<Entity>, speed: int, limit: int)
    ensures AllObstacles(es) ==> AllObstacles(Advance(es, speed, limit))
    ensures AllItems(es) ==> AllItems(Advance(es, speed, limit))
  {
    if es != [] {
      AdvanceKeepsKind(es[..|es| - 1], speed, limit);
    }
  }

  /** The elements whose box does not touch the player's, in order. */
  function Survivors(es: seq<Entity>, player: Box, layout: Layout): (r: seq<Entity>)
    ensures |r| + Hits(es, player, layout) == |es|
  {
    if es == [] then []
    else
      var e := es[|es| - 1];
      var init := Survivors(es[..|es| - 1], player, layout);
      if IsColliding(player, layout(e)) then init else init + [e]
  }

  /** The collision pass keeps each container's kind. */
  lemma {:induction false} SurvivorsKeepKind(es: seq<Entity>, player: Box, layout: Layout)
    ensures AllObstacles(es) ==> AllObstacles(Survivors(es, player, layout))
    ensures AllItems(es) ==> AllItems(Survivors(es, player, layout))
  {
    if es != [] {
      SurvivorsKeepKind(es[..|es| - 1], player, layout);
    }
  }

  /** How many elements touch the player. */
  function Hits(es: seq<Entity>, player: Box, layout: Layout): (n: nat)
    ensures n <= |es|
  {
    if es == [] then 0
    else Hits(es[..|es| - 1], player, layout) + (if IsColliding(player, layout(es[|es| - 1])) then 1 else 0)
  }

  /** An element survives exactly when it was there and does not touch the player. */
  lemma {:induction false} SurvivorsMember(es: seq<Entity>, player: Box, layout: Layout, e: Entity)
    ensures e in Survivors(es, player, layout) <==> e in es && !IsColliding(player, layout(e))
  {
    if es != [] {
      var init := es[..|es| - 1];
      SurvivorsMember(init, player, layout, e);
      assert es == init + [es[|es| - 1]];
    }
  }

  /** Some element touches the player exactly when at least one is counted. */
  lemma {:induction false} HitsPositive(es: seq<Entity>, player: Box, layout: Layout)
    ensures Hits(es, player, layout) > 0 <==> exists i :: 0 <= i < |es| && IsColliding(player, layout(es[i]))
  {
    if es != [] {
      var init := es[..|es| - 1];
      HitsPositive(init, player, layout);
      if Hits(init, player, layout) > 0 {
        var i :| 0 <= i < |init| && IsColliding(player, layout(init[i]));
        assert es[i] == init[i];
      }
      if exists i :: 0 <= i < |es| && IsColliding(player, layout(es[i])) {
        var i :| 0 <= i < |es| && IsColliding(player, layout(es[i]));
        if i < |init| {
          assert init[i] == es[i];
        }
      }
    }
  }

  /** How many coins touch the player. */
  function CoinHits(es: seq<Entity>, player: Box, layout: Layout): (n: nat)
    ensures n <= Hits(es, player, layout)
  {
    if es == [] then 0
    else
      var e := es[|es| - 1];
      CoinHits(es[..|es| - 1], player, layout) + (if e.Item? && e.kind == Coin && IsColliding(player, layout(e)) then 1 else 0)
  }

  /** Some shield item touches the player. */
  predicate ShieldHit(es: seq<Entity>, player: Box, layout: Layout) {
    exists i :: 0 <= i < |es| && es[i].Item? && es[i].kind == ShieldItem && IsColliding(player, layout(es[i]))
  }
}
