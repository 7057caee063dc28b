/**
 * A defender: it has clamped health, and on a cooldown it hits the nearest
 * enemy within its range.
 */
module Defenders {
  import opened Opt
  import opened Numerics
  import opened Geometry
  import opened Enemies
  import opened Combat
  import opened Health

  class Defender {
    const maxHealth: int
    const attackRange: real
    const damage: int
    const attackInterval: real
    /** Where the defender stands; defenders do not move. */
    const position: Vec3

    var currentHealth: int
    var attackTimer: real
    /** How many times the defender has asked the engine to destroy it. */
    var destroyRequests: nat

    /** A defender as instantiated: health not yet set up, timer at zero. */
    constructor(maxHealth: int, attackRange: real, damage: int, attackInterval: real, position: Vec3)
      ensures this.maxHealth == maxHealth && this.attackRange == attackRange && this.damage == damage
      ensures this.attackInterval == attackInterval && this.position == position
      ensures currentHealth == 0 && attackTimer == 0.0 && destroyRequests == 0
    {
      this.maxHealth := maxHealth;
      this.attackRange := attackRange;
      this.damage := damage;
      this.attackInterval := attackInterval;
      this.position := position;
      currentHealth := 0;
      attackTimer := 0.0;
      destroyRequests := 0;
    }

    /** Starts at full health. */
    method Start()
      modifies this`currentHealth
      ensures currentHealth == maxHealth
    {
      currentHealth := maxHealth;
    }

    /**
     * One frame: the timer runs down by dt; once it is not positive the
     * defender looks for the nearest enemy in range and, if there is one, hits
     * it once for its damage and rewinds the timer to the attack interval.
     * Without a target the timer keeps its run-down value, so the next frame
     * looks again.
     */
    method Update(dt: real, enemies: seq<Enemy>) returns (target: Option<nat>)
      requires Distinct(enemies)
      modifies this`attackTimer, enemies`health, enemies`destroyRequests
      ensures old(attackTimer) - dt > 0.0 ==> target.None?
      ensures old(attackTimer) - dt <= 0.0 ==> IsNearest(position, attackRange, old(Positions(enemies)), target)
      ensures attackTimer == if target.Some? then attackInterval else old(attackTimer) - dt
      ensures Positions(enemies) == old(Positions(enemies))
      ensures forall i :: 0 <= i < |enemies| ==>
                && enemies[i].health == old(enemies[i].health) - (if target == Some(i) then damage else 0)
                && enemies[i].destroyRequests
                   == old(enemies[i].destroyRequests) + (if target == Some(i) && enemies[i].health <= 0 then 1 else 0)
    {
      attackTimer := attackTimer - dt;
      target := None;
      if attackTimer <= 0.0 {
        target := Strike(position, attackRange, damage, enemies);
        if target.Some? {
          attackTimer := attackInterval;
        }
      }
    }

    /** Takes damage, clamping health into [0, maxHealth], and asks to be destroyed when none is left. */
    method TakeDamage(amount: int)
      modifies this`currentHealth, this`destroyRequests
      ensures currentHealth == Damaged(old(currentHealth), amount, maxHealth)
      ensures destroyRequests == old(destroyRequests) + (if currentHealth <= 0 then 1 else 0)
    {
      currentHealth := currentHealth - amount;
      currentHealth := Clamp(currentHealth, 0, maxHealth);
      if currentHealth <= 0 {
        destroyRequests := destroyRequests + 1;
      }
    }
  }
}
