/**
 * An enemy: it walks a path of waypoints one at a time, asks to be
 * destroyed when it passes the last one, and loses health without any
 * clamping when hit.
 */
module Enemies {
  import opened Geometry

  /** The distance under which a waypoint counts as reached. */
  const ArrivalDistance: real := 0.1

  class Enemy {
    var position: Vec3
    /** The waypoints; an unset or empty path is the empty sequence. */
    var path: seq<Vec3>
    var pathIndex: int
    const moveSpeed: real
    var health: int
    /** How many times the enemy has asked the engine to destroy it. */
    var destroyRequests: nat

    /**
     * The cursor stays within the path, and an enemy whose cursor has passed
     * the last waypoint has asked to be destroyed.
     */
    ghost predicate Valid()
      reads this
    {
      0 <= pathIndex <= |path| && (0 < |path| == pathIndex ==> destroyRequests > 0)
    }

    /** A fresh enemy at a position, with the prefab's speed and health and no path yet. */
    constructor(position: Vec3, moveSpeed: real, health: int)
      ensures Valid()
      ensures this.position == position && this.moveSpeed == moveSpeed && this.health == health
      ensures path == [] && pathIndex == 0 && destroyRequests == 0
    {
      this.position := position;
      this.moveSpeed := moveSpeed;
      this.health := health;
      path := [];
      pathIndex := 0;
      destroyRequests := 0;
    }

    /**
     * One frame: with no path nothing happens; otherwise the enemy moves
     * toward the current waypoint by at most moveSpeed * dt and, once closer
     * to it than the arrival distance, advances the cursor by one, asking to
     * be destroyed when that passes the last waypoint. An enemy that passed
     * its last waypoint was destroyed at the end of that frame and gets no
     * further frame.
     */
    method Update(dt: real, moveTowards: (Vec3, Vec3, real) -> Vec3)
      requires Valid() && (path == [] || pathIndex < |path|)
      modifies this`position, this`pathIndex, this`destroyRequests
      ensures Valid()
      ensures path == [] ==>
                position == old(position) && pathIndex == old(pathIndex) && destroyRequests == old(destroyRequests)
      ensures path != [] ==>
                var target := path[old(pathIndex)];
                var arrived := CloserThan(SqDist(position, target), ArrivalDistance);
                && position == moveTowards(old(position), target, moveSpeed * dt)
                && pathIndex == old(pathIndex) + (if arrived then 1 else 0)
                && destroyRequests == old(destroyRequests) + (if pathIndex == |path| then 1 else 0)
    {
      if path == [] {
        return;
      }
      var target := path[pathIndex];
      position := moveTowards(position, target, moveSpeed * dt);
      if CloserThan(SqDist(position, target), ArrivalDistance) {
        pathIndex := pathIndex + 1;
        if pathIndex >= |path| {
          destroyRequests := destroyRequests + 1;
        }
      }
    }

    /** Replaces the path and restarts it from its first waypoint. */
    method SetTarget(newPath: seq<Vec3>)
      requires Valid()
      modifies this`path, this`pathIndex
      ensures Valid()
      ensures path == newPath && pathIndex == 0
    {
      path := newPath;
      pathIndex := 0;
    }

    /** Subtracts the damage, without a floor, and asks to be destroyed whenever health is not positive. */
    method TakeDamage(amount: int)
      modifies this`health, this`destroyRequests
      ensures health == old(health) - amount
      ensures destroyRequests == old(destroyRequests) + (if health <= 0 then 1 else 0)
    {
      health := health - amount;
      if health <= 0 {
        destroyRequests := destroyRequests + 1;
      }
    }
  }

  /** The enemies' positions, in the order of the sequence. */
  function Positions(enemies: seq<Enemy>): (ps: seq<Vec3>)
    reads enemies
    ensures |ps| == |enemies|
    ensures forall i :: 0 <= i < |enemies| ==> ps[i] == enemies[i].position
  {
    seq(|enemies|, i reads enemies requires 0 <= i < |enemies| => enemies[i].position)
  }

  /** No enemy appears twice, as in the engine's list of live enemies. */
  predicate Distinct(enemies: seq<Enemy>)
  {
    forall i, j :: 0 <= i < j < |enemies| ==> enemies[i] != enemies[j]
  }
}
