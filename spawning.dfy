/**
 * The enemy spawner: once the terrain, its spawn points and the tower are
 * there, it spawns enemies at randomly chosen spawn points, one per firing,
 * until maxEnemies have been spawned, each walking a two-point path from its
 * spawn point to the tower.
 */
module Spawning {
  import opened Opt
  import opened Numerics
  import opened Geometry
  import opened Terrain
  import opened Enemies

  /** The spawn points picked by the first n draws. */
  function Picked(spawnPoints: seq<Vec3>, rolls: seq<int>, n: nat): (ps: seq<Vec3>)
    requires n <= |rolls| && |spawnPoints| > 0
    requires forall k :: 0 <= k < |rolls| ==> InRandomRange(rolls[k], 0, |spawnPoints|)
    ensures |ps| == n
    ensures forall k :: 0 <= k < n ==> InRandomRange(rolls[k], 0, |spawnPoints|) && ps[k] == spawnPoints[rolls[k]]
  {
    if n == 0 then [] else Picked(spawnPoints, rolls, n - 1) + [spawnPoints[rolls[n - 1]]]
  }

  /** How many firings spawn before the counter reaches the cap, starting from the given count. */
  function Firings(spawned: int, maxEnemies: int, available: nat): (n: nat)
    ensures n <= available
    ensures spawned < maxEnemies ==> spawned + n <= maxEnemies
    ensures n < available ==> spawned + n >= maxEnemies
  {
    if spawned >= maxEnemies then 0 else Min(maxEnemies - spawned, available)
  }

  /** The spawner can spawn: a prefab, at least one spawn point and a tower. */
  predicate CanSpawn(hasEnemyPrefab: bool, spawnPoints: seq<Vec3>, tower: Option<Vec3>)
  {
    hasEnemyPrefab && |spawnPoints| > 0 && tower.Some?
  }

  /** The start-up guard: a terrain whose spawn points are set and non-empty, and a tower. */
  predicate Ready(terrain: Option<TerrainView>)
  {
    && terrain.Some?
    && terrain.value.spawnPoints.Some? && |terrain.value.spawnPoints.value| > 0
    && terrain.value.tower.Some?
  }

  class EnemySpawner {
    const hasEnemyPrefab: bool
    /** Whether the prefab carries an enemy component. */
    const prefabHasEnemy: bool
    const spawnInterval: real
    const maxEnemies: int
    /** The prefab enemy's speed and health. */
    const enemySpeed: real
    const enemyHealth: int

    var enemiesSpawned: int
    /** Where each spawned object was instantiated, in order. */
    var instantiated: seq<Vec3>
    /** The enemy components of the spawned objects, in order. */
    var enemies: seq<Enemy>

    constructor(hasEnemyPrefab: bool, prefabHasEnemy: bool, spawnInterval: real, maxEnemies: int,
                enemySpeed: real, enemyHealth: int)
      ensures this.hasEnemyPrefab == hasEnemyPrefab && this.prefabHasEnemy == prefabHasEnemy
      ensures this.spawnInterval == spawnInterval && this.maxEnemies == maxEnemies
      ensures this.enemySpeed == enemySpeed && this.enemyHealth == enemyHealth
      ensures enemiesSpawned == 0 && instantiated == [] && enemies == []
    {
      this.hasEnemyPrefab := hasEnemyPrefab;
      this.prefabHasEnemy := prefabHasEnemy;
      this.spawnInterval := spawnInterval;
      this.maxEnemies := maxEnemies;
      this.enemySpeed := enemySpeed;
      this.enemyHealth := enemyHealth;
      enemiesSpawned := 0;
      instantiated := [];
      enemies := [];
    }

    /** A spawned enemy: fresh at its spawn point, with the prefab's settings, about to walk to the tower. */
    ghost predicate SpawnedAt(e: Enemy, spawn: Vec3, tower: Vec3)
      reads e
    {
      && e.Valid()
      && e.position == spawn && e.moveSpeed == enemySpeed && e.health == enemyHealth
      && e.path == [spawn, tower] && e.pathIndex == 0 && e.destroyRequests == 0
    }

    /**
     * Spawns one enemy at the spawn point the draw picks and gives it the
     * path from there to the tower; the count goes up even when the object has
     * no enemy component. Without a prefab, spawn points or a tower nothing
     * happens.
     */
    method SpawnEnemy(spawnPoints: seq<Vec3>, tower: Option<Vec3>, roll: int)
      requires InRandomRange(roll, 0, |spawnPoints|)
      modifies this`enemiesSpawned, this`instantiated, this`enemies
      ensures !CanSpawn(hasEnemyPrefab, spawnPoints, tower) ==>
                enemiesSpawned == old(enemiesSpawned) && instantiated == old(instantiated) && enemies == old(enemies)
      ensures CanSpawn(hasEnemyPrefab, spawnPoints, tower) ==>
                && enemiesSpawned == old(enemiesSpawned) + 1
                && instantiated == old(instantiated) + [spawnPoints[roll]]
                && |enemies| == |old(enemies)| + (if prefabHasEnemy then 1 else 0)
                && enemies[..|old(enemies)|] == old(enemies)
                && (prefabHasEnemy ==>
                      && fresh(enemies[|enemies| - 1])
                      && SpawnedAt(enemies[|enemies| - 1], spawnPoints[roll], tower.value))
    {
      if !hasEnemyPrefab || |spawnPoints| == 0 || tower.None? {
        return;
      }
      var spawnPos := spawnPoints[roll];
      instantiated := instantiated + [spawnPos];
      if prefabHasEnemy {
        var enemy := new Enemy(spawnPos, enemySpeed, enemyHealth);
        var path := new Vec3[2];
        path[0] := spawnPos;
        path[1] := tower.value;
        enemy.SetTarget(path[..]);
        enemies := enemies + [enemy];
      }
      enemiesSpawned := enemiesSpawned + 1;
    }

    /**
     * The spawn loop, one draw per firing: it fires while fewer than
     * maxEnemies have been spawned and draws remain. When the spawner can
     * spawn, every firing spawns at the spawn point its draw picks; when it
     * cannot, firings change nothing.
     */
    method SpawnLoop(spawnPoints: seq<Vec3>, tower: Option<Vec3>, rolls: seq<int>)
      requires forall k :: 0 <= k < |rolls| ==> InRandomRange(rolls[k], 0, |spawnPoints|)
      modifies this`enemiesSpawned, this`instantiated, this`enemies
      ensures !CanSpawn(hasEnemyPrefab, spawnPoints, tower) ==>
                enemiesSpawned == old(enemiesSpawned) && instantiated == old(instantiated) && enemies == old(enemies)
      ensures CanSpawn(hasEnemyPrefab, spawnPoints, tower) ==>
                var n := Firings(old(enemiesSpawned), maxEnemies, |rolls|);
                && enemiesSpawned == old(enemiesSpawned) + n
                && instantiated == old(instantiated) + Picked(spawnPoints, rolls, n)
                && |enemies| == |old(enemies)| + (if prefabHasEnemy then n else 0)
                && enemies[..|old(enemies)|] == old(enemies)
                && (forall i :: |old(enemies)| <= i < |enemies| ==>
                      fresh(enemies[i]) && SpawnedAt(enemies[i], spawnPoints[rolls[i - |old(enemies)|]], tower.value))
    {
      var k := 0;
      while enemiesSpawned < maxEnemies && k < |rolls|
        invariant 0 <= k <= |rolls|
        invariant !CanSpawn(hasEnemyPrefab, spawnPoints, tower) ==>
                    enemiesSpawned == old(enemiesSpawned) && instantiated == old(instantiated) && enemies == old(enemies)
        invariant CanSpawn(hasEnemyPrefab, spawnPoints, tower) ==>
                    && k == Firings(old(enemiesSpawned), maxEnemies, k)
                    && enemiesSpawned == old(enemiesSpawned) + k
                    && instantiated == old(instantiated) + Picked(spawnPoints, rolls, k)
                    && |enemies| == |old(enemies)| + (if prefabHasEnemy then k else 0)
                    && enemies[..|old(enemies)|] == old(enemies)
                    && (forall i :: |old(enemies)| <= i < |enemies| ==>
                          fresh(enemies[i]) && SpawnedAt(enemies[i], spawnPoints[rolls[i - |old(enemies)|]], tower.value))
        decreases |rolls| - k
      {
        SpawnEnemy(spawnPoints, tower, rolls[k]);
        k := k + 1;
      }
    }

    /**
     * Starts the spawn loop only when the terrain, its spawn points and the
     * tower are all there; it then promises what the spawn loop promises.
     */
    method Start(terrain: Option<TerrainView>, rolls: seq<int>)
      requires Ready(terrain) ==>
                 forall k :: 0 <= k < |rolls| ==> InRandomRange(rolls[k], 0, |terrain.value.spawnPoints.value|)
      modifies this`enemiesSpawned, this`instantiated, this`enemies
      ensures !Ready(terrain) || !hasEnemyPrefab ==>
                enemiesSpawned == old(enemiesSpawned) && instantiated == old(instantiated) && enemies == old(enemies)
      ensures Ready(terrain) && hasEnemyPrefab ==>
                var spawnPoints := terrain.value.spawnPoints.value;
                var n := Firings(old(enemiesSpawned), maxEnemies, |rolls|);
                && enemiesSpawned == old(enemiesSpawned) + n
                && instantiated == old(instantiated) + Picked(spawnPoints, rolls, n)
                && |enemies| == |old(enemies)| + (if prefabHasEnemy then n else 0)
                && enemies[..|old(enemies)|] == old(enemies)
                && (forall i :: |old(enemies)| <= i < |enemies| ==>
                      fresh(enemies[i]) &&
                      SpawnedAt(enemies[i], spawnPoints[rolls[i - |old(enemies)|]], terrain.value.tower.value))
    {
      if !Ready(terrain) {
        return;
      }
      SpawnLoop(terrain.value.spawnPoints.value, terrain.value.tower, rolls);
    }
  }
}
