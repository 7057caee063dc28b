/**
 * The targeting rule shared by defenders and the tower: among the live
 * enemies, the nearest one within the attack range, the earliest in scan
 * order winning a tie.
 */
module Combat {
  import opened Opt
  import opened Geometry
  import opened Enemies

  /** The point is no farther from the origin than the range. */
  predicate InRange(origin: Vec3, range: real, p: Vec3)
  {
    WithinDistance(SqDist(origin, p), range)
  }

  /**
   * r is the scan's answer for the points ps: None when no point is in
   * range; otherwise an in-range point that no in-range point is nearer
   * than, and to which every earlier in-range point is strictly farther.
   */
  predicate IsNearest(origin: Vec3, range: real, ps: seq<Vec3>, r: Option<nat>)
  {
    match r
    case None => forall j :: 0 <= j < |ps| ==> !InRange(origin, range, ps[j])
    case Some(k) =>
      && k < |ps| && InRange(origin, range, ps[k])
      && (forall j :: 0 <= j < |ps| && InRange(origin, range, ps[j]) ==> SqDist(origin, ps[k]) <= SqDist(origin, ps[j]))
      && (forall j :: 0 <= j < k && InRange(origin, range, ps[j]) ==> SqDist(origin, ps[k]) < SqDist(origin, ps[j]))
  }

  /** The reference answer: a point taken over from earlier ones only when it is in range and strictly nearer. */
  function Nearest(origin: Vec3, range: real, ps: seq<Vec3>): (r: Option<nat>)
    ensures r.Some? ==> r.value < |ps|
  {
    if ps == [] then None
    else
      var r := Nearest(origin, range, ps[..|ps| - 1]);
      var p := ps[|ps| - 1];
      if InRange(origin, range, p) && (r.None? || SqDist(origin, p) < SqDist(origin, ps[r.value]))
      then Some(|ps| - 1)
      else r
  }

  /** The reference answer meets the specification. */
  lemma {:induction false} NearestIsNearest(origin: Vec3, range: real, ps: seq<Vec3>)
    ensures IsNearest(origin, range, ps, Nearest(origin, range, ps))
  {
    if ps != [] {
      var init := ps[..|ps| - 1];
      NearestIsNearest(origin, range, init);
      var r := Nearest(origin, range, init);
      assert forall j :: 0 <= j < |init| ==> init[j] == ps[j];
      match r
      case None =>
      case Some(k) =>
        assert InRange(origin, range, ps[k]);
    }
  }

  /** At most one answer meets the specification, so the scan's answer is determined. */
  lemma NearestIsUnique(origin: Vec3, range: real, ps: seq<Vec3>, r1: Option<nat>, r2: Option<nat>)
    requires IsNearest(origin, range, ps, r1) && IsNearest(origin, range, ps, r2)
    ensures r1 == r2
  {
  }

  /**
   * The scan: a running minimum over the enemies, taking an enemy when it is
   * in range and strictly nearer than the best so far (no best yet counts as
   * infinitely far).
   */
  method FindClosestEnemy(origin: Vec3, attackRange: real, enemies: seq<Enemy>) returns (closest: Option<nat>)
    ensures IsNearest(origin, attackRange, Positions(enemies), closest)
    ensures closest == Nearest(origin, attackRange, Positions(enemies))
  {
    ghost var ps := Positions(enemies);
    closest := None;
    var minDist := 0.0;
    for i := 0 to |enemies|
      invariant closest.None? ==> forall j :: 0 <= j < i ==> !InRange(origin, attackRange, ps[j])
      invariant closest.Some? ==>
                  && closest.value < i
                  && minDist == SqDist(origin, ps[closest.value])
                  && InRange(origin, attackRange, ps[closest.value])
                  && (forall j :: 0 <= j < i && InRange(origin, attackRange, ps[j]) ==> minDist <= SqDist(origin, ps[j]))
                  && (forall j :: 0 <= j < closest.value && InRange(origin, attackRange, ps[j]) ==>
                        minDist < SqDist(origin, ps[j]))
    {
      var dist := SqDist(origin, enemies[i].position);
      if WithinDistance(dist, attackRange) && (closest.None? || dist < minDist) {
        minDist := dist;
        closest := Some(i);
      }
    }
    NearestIsNearest(origin, attackRange, ps);
    NearestIsUnique(origin, attackRange, ps, closest, Nearest(origin, attackRange, ps));
  }

  /**
   * Finds the target and hits it once: only the target's health and
   * destruction requests change, as its damage handler says.
   */
  method Strike(origin: Vec3, attackRange: real, damage: int, enemies: seq<Enemy>) returns (target: Option<nat>)
    requires Distinct(enemies)
    modifies enemies`health, enemies`destroyRequests
    ensures IsNearest(origin, attackRange, old(Positions(enemies)), target)
    ensures Positions(enemies) == old(Positions(enemies))
    ensures forall i :: 0 <= i < |enemies| ==>
              && enemies[i].health == old(enemies[i].health) - (if target == Some(i) then damage else 0)
              && enemies[i].destroyRequests
                 == old(enemies[i].destroyRequests) + (if target == Some(i) && enemies[i].health <= 0 then 1 else 0)
  {
    target := FindClosestEnemy(origin, attackRange, enemies);
    if target.Some? {
      enemies[target.value].TakeDamage(damage);
    }
  }
}
