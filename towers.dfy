/**
 * The tower: it attacks like a defender, with its own timer starting at
 * zero, and keeps clamped health, dying whenever a hit leaves none.
 */
module Towers {
  import opened Opt
  import opened Numerics
  import opened Geometry
  import opened Enemies
  import opened Combat
  import opened Health

  class TowerAttack {
    const attackRange: real
    const attackInterval: real
    const damage: int
    /** Where the tower stands. */
    const position: Vec3

    var attackTimer: real

    /** The timer starts at zero, so the first frame with a non-negative dt already looks for a target. */
    constructor(attackRange: real, attackInterval: real, damage: int, position: Vec3)
      ensures this.attackRange == attackRange && this.attackInterval == attackInterval
      ensures this.damage == damage && this.position == position
      ensures attackTimer == 0.0
    {
      this.attackRange := attackRange;
      this.attackInterval := attackInterval;
      this.damage := damage;
      this.position := position;
      attackTimer := 0.0;
    }

    /**
     * One frame: the timer runs down by dt; once it is not positive the tower
     * hits the nearest enemy in range once and rewinds the timer. A miss
     * leaves the timer not positive, so the next frame with a non-negative dt
     * looks again.
     */
    method Update(dt: real, enemies: seq<Enemy>) returns (target: Option<nat>)
      requires Distinct(enemies)
      modifies this`attackTimer, enemies`health, enemies`destroyRequests
      ensures old(attackTimer) - dt > 0.0 ==> target.None?
      ensures old(attackTimer) - dt <= 0.0 ==> IsNearest(position, attackRange, old(Positions(enemies)), target)
      ensures attackTimer == if target.Some? then attackInterval else old(attackTimer) - dt
      ensures old(attackTimer) - dt <= 0.0 && target.None? ==> attackTimer <= 0.0
      ensures Positions(enemies) == old(Positions(enemies))
      ensures forall i :: 0 <= i < |enemies| ==>
                && enemies[i].health == old(enemies[i].health) - (if target == Some(i) then damage else 0)
                && enemies[i].destroyRequests
                   == old(enemies[i].destroyRequests) + (if target == Some(i) && enemies[i].health <= 0 then 1 else 0)
    {
      attackTimer := attackTimer - dt;
      target := None;
      if attackTimer <= 0.0 {
        target := Strike(position, attackRange, damage, enemies);
        if target.Some? {
          attackTimer := attackInterval;
        }
      }
    }
  }

  class TowerHealth {
    const maxHealth: int
    var currentHealth: int
    /** How many times the tower has died (and asked the engine to destroy it). */
    var deaths: nat

    /** A tower as instantiated: health not yet set up. */
    constructor(maxHealth: int)
      ensures this.maxHealth == maxHealth && currentHealth == 0 && deaths == 0
    {
      this.maxHealth := maxHealth;
      currentHealth := 0;
      deaths := 0;
    }

    /** Starts at full health. */
    method Start()
      modifies this`currentHealth
      ensures currentHealth == maxHealth
    {
      currentHealth := maxHealth;
    }

    /**
     * Takes damage, clamping health into [0, maxHealth], and dies whenever
     * none is left, even when it had already died.
     */
    method TakeDamage(amount: int)
      modifies this`currentHealth, this`deaths
      ensures currentHealth == Damaged(old(currentHealth), amount, maxHealth)
      ensures deaths == old(deaths) + (if currentHealth <= 0 then 1 else 0)
    {
      currentHealth := currentHealth - amount;
      currentHealth := Clamp(currentHealth, 0, maxHealth);
      if currentHealth <= 0 {
        Die();
      }
    }

    /** Game over: the tower asks to be destroyed. */
    method Die()
      modifies this`deaths
      ensures deaths == old(deaths) + 1
    {
      deaths := deaths + 1;
    }
  }
}
