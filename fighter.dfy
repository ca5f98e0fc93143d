/**
 * The fighter: each frame its two timers advance; with a live target it
 * either moves toward the target (out of weapon range) or stops and runs the
 * attack behaviour, which triggers an attack only once the cooldown since the
 * last attack has passed. The animation's hit event then damages the target,
 * directly or through a projectile.
 *
 * The distance to the target, the pathing query and the weapon's range and
 * projectile flag are inputs; calls into the mover, the animator, the action
 * scheduler and the weapon are recorded in a log.
 */
module Combat {
  import opened Basics
  import opened Experience
  import opened Attributes

  datatype FighterEvent =
    | NotInCombat
    | MoveTo(speedFraction: real)
    | CancelMovement
    | AttackTriggered
    | AttackStopped
    | ActionStarted
    | WeaponHit
    | ProjectileLaunched(damage: real)

  /** The equipped weapon's range and whether it fires projectiles. */
  datatype Weapon = Weapon(weaponRange: real, hasProjectile: bool)

  datatype CombatTimers = CombatTimers(timeSinceLastAttack: Timer, timeOutOfCombat: Timer)

  /** What `CanAttack` looks at on the combat target; `None` is a null target. */
  datatype CombatTarget = CombatTarget(canMoveTo: bool, distance: real, hasHealth: bool, isDead: bool)

  /** "In range" is strict: the distance must be below the weapon range. */
  predicate GetIsInRange(w: Weapon, distance: real) {
    distance < w.weaponRange
  }

  predicate CanAttack(w: Weapon, combatTarget: Option<CombatTarget>) {
    if combatTarget.None? then false
    else if !combatTarget.value.canMoveTo && !GetIsInRange(w, combatTarget.value.distance) then false
    else combatTarget.value.hasHealth && !combatTarget.value.isDead
  }

  /** `CanAttack` is false for a null target, an unreachable target out of range, or a target without (live) health, and true otherwise. */
  lemma CanAttackCases(w: Weapon, c: Option<CombatTarget>)
    ensures CanAttack(w, c) <==>
      c.Some? && (c.value.canMoveTo || c.value.distance < w.weaponRange) && c.value.hasHealth && !c.value.isDead
    ensures c.Some? && !c.value.canMoveTo && c.value.distance < w.weaponRange && c.value.hasHealth && !c.value.isDead
      ==> CanAttack(w, c)
  {
  }

  /** One frame with a live target at the given distance: the new timers and the log entries. */
  function Tick(timeBetweenAttacks: real, timeToIndicateNotInCombat: real, w: Weapon,
                s: CombatTimers, deltaTime: real, distance: real): (CombatTimers, seq<FighterEvent>)
  {
    var lastAttack := s.timeSinceLastAttack.Advance(deltaTime);
    var outOfCombat := s.timeOutOfCombat.Advance(deltaTime);
    var notice := if outOfCombat.Exceeds(timeToIndicateNotInCombat) then [NotInCombat] else [];
    if !GetIsInRange(w, distance) then
      (CombatTimers(lastAttack, outOfCombat), notice + [MoveTo(1.0)])
    else if lastAttack.Exceeds(timeBetweenAttacks) then
      (CombatTimers(Reset, Reset), notice + [CancelMovement, AttackTriggered])
    else
      (CombatTimers(lastAttack, Reset), notice + [CancelMovement])
  }

  /** Whether a log contains an attack trigger. */
  predicate Attacks(events: seq<FighterEvent>) {
    AttackTriggered in events
  }

  /**
   * Out of range the fighter moves toward the target at full speed and does
   * not attack; in range it cancels movement, resets its out-of-combat timer,
   * and attacks exactly when the advanced cooldown timer exceeds the time
   * between attacks, which then restarts at 0.
   */
  lemma TickBranches(tba: real, tti: real, w: Weapon, s: CombatTimers, dt: real, distance: real)
    ensures var (r, ev) := Tick(tba, tti, w, s, dt, distance);
      && (!GetIsInRange(w, distance) ==>
            MoveTo(1.0) in ev && !Attacks(ev) && r == CombatTimers(s.timeSinceLastAttack.Advance(dt), s.timeOutOfCombat.Advance(dt)))
      && (GetIsInRange(w, distance) ==>
            CancelMovement in ev && MoveTo(1.0) !in ev && r.timeOutOfCombat == Reset
            && (Attacks(ev) <==> s.timeSinceLastAttack.Advance(dt).Exceeds(tba))
            && (Attacks(ev) ==> r.timeSinceLastAttack == Reset)
            && (!Attacks(ev) ==> r.timeSinceLastAttack == s.timeSinceLastAttack.Advance(dt)))
      && (NotInCombat in ev <==> s.timeOutOfCombat.Advance(dt).Exceeds(tti))
  {
  }

  /** The first in-range tick attacks at once, because the cooldown timer starts at infinity. */
  lemma FirstInRangeTickAttacks(tba: real, tti: real, w: Weapon, outOfCombat: Timer, dt: real, distance: real)
    requires GetIsInRange(w, distance)
    ensures Attacks(Tick(tba, tti, w, CombatTimers(Infinite, outOfCombat), dt, distance).1)
  {
  }

  /** A run of frames with a live target: the distances and frame times of each. */
  function Run(tba: real, tti: real, w: Weapon, s: CombatTimers,
               frames: seq<(real, real)>): (CombatTimers, seq<FighterEvent>)
    decreases |frames|
  {
    if frames == [] then (s, [])
    else
      var (s1, ev1) := Tick(tba, tti, w, s, frames[0].0, frames[0].1);
      var (s2, ev2) := Run(tba, tti, w, s1, frames[1..]);
      (s2, ev1 + ev2)
  }

  /** The total frame time of a run. */
  function TotalTime(frames: seq<(real, real)>): real
    decreases |frames|
  {
    if frames == [] then 0.0 else frames[0].0 + TotalTime(frames[1..])
  }

  /**
   * The cooldown: if the last attack was `since` seconds ago, no attack
   * triggers during frames whose total time keeps `since` plus the elapsed
   * time at most the time between attacks (frame times non-negative), and the
   * cooldown timer then reads `since` plus that time.
   */
  lemma {:induction false} NoAttackDuringCooldown(tba: real, tti: real, w: Weapon, since: real,
                                                  outOfCombat: Timer, frames: seq<(real, real)>)
    requires forall i :: 0 <= i < |frames| ==> frames[i].0 >= 0.0
    requires since + TotalTime(frames) <= tba
    ensures !Attacks(Run(tba, tti, w, CombatTimers(Elapsed(since), outOfCombat), frames).1)
    ensures Run(tba, tti, w, CombatTimers(Elapsed(since), outOfCombat), frames).0.timeSinceLastAttack
         == Elapsed(since + TotalTime(frames))
    decreases |frames|
  {
    if frames != [] {
      var dt := frames[0].0;
      TotalTimeNonNegative(frames[1..]);
      var (s1, ev1) := Tick(tba, tti, w, CombatTimers(Elapsed(since), outOfCombat), dt, frames[0].1);
      assert !Attacks(ev1);
      assert s1.timeSinceLastAttack == Elapsed(since + dt);
      NoAttackDuringCooldown(tba, tti, w, since + dt, s1.timeOutOfCombat, frames[1..]);
      var (s2, ev2) := Run(tba, tti, w, s1, frames[1..]);
      assert AttackTriggered !in ev1 + ev2;
    }
  }

  lemma {:induction false} TotalTimeNonNegative(frames: seq<(real, real)>)
    requires forall i :: 0 <= i < |frames| ==> frames[i].0 >= 0.0
    ensures TotalTime(frames) >= 0.0
    decreases |frames|
  {
    if frames != [] {
      TotalTimeNonNegative(frames[1..]);
    }
  }

  class Fighter {
    const timeBetweenAttacks: real
    const timeToIndicateNotInCombat: real
    var weapon: Weapon
    var timeSinceLastAttack: Timer
    var timeOutOfCombat: Timer
    var target: Health?
    var events: seq<FighterEvent>

    function Timers(): CombatTimers
      reads this
    {
      CombatTimers(timeSinceLastAttack, timeOutOfCombat)
    }

    /** A new fighter: both timers at infinity, no target. */
    constructor (timeBetweenAttacks: real, timeToIndicateNotInCombat: real, weapon: Weapon)
      ensures this.timeBetweenAttacks == timeBetweenAttacks
      ensures this.timeToIndicateNotInCombat == timeToIndicateNotInCombat
      ensures this.weapon == weapon && target == null && events == []
      ensures Timers() == CombatTimers(Infinite, Infinite)
    {
      this.timeBetweenAttacks := timeBetweenAttacks;
      this.timeToIndicateNotInCombat := timeToIndicateNotInCombat;
      this.weapon := weapon;
      timeSinceLastAttack := Infinite;
      timeOutOfCombat := Infinite;
      target := null;
      events := [];
    }

    /**
     * `Update`: both timers advance before any guard; with a null or dead
     * target nothing else happens; otherwise the frame follows `Tick`.
     * `distance` is the distance to the target.
     */
    method Update(deltaTime: real, distance: real)
      modifies this`timeSinceLastAttack, this`timeOutOfCombat, this`events
      ensures target == null || target.hasDied ==>
        Timers() == CombatTimers(old(timeSinceLastAttack).Advance(deltaTime), old(timeOutOfCombat).Advance(deltaTime)) &&
        events == old(events)
      ensures target != null && !target.hasDied ==>
        var (r, ev) := Tick(timeBetweenAttacks, timeToIndicateNotInCombat, weapon, old(Timers()), deltaTime, distance);
        Timers() == r && events == old(events) + ev
    {
      timeSinceLastAttack := timeSinceLastAttack.Advance(deltaTime);
      timeOutOfCombat := timeOutOfCombat.Advance(deltaTime);
      if target == null {
        return;
      }
      if target.IsDead() {
        return;
      }
      if timeOutOfCombat.Exceeds(timeToIndicateNotInCombat) {
        events := events + [NotInCombat];
      }
      if !GetIsInRange(weapon, distance) {
        events := events + [MoveTo(1.0)];
      } else {
        events := events + [CancelMovement];
        AttackBehaviour();
      }
    }

    /** Resets the out-of-combat timer; triggers an attack and restarts the cooldown once it has passed. */
    method AttackBehaviour()
      modifies this`timeSinceLastAttack, this`timeOutOfCombat, this`events
      ensures timeOutOfCombat == Reset
      ensures old(timeSinceLastAttack).Exceeds(timeBetweenAttacks) ==>
        timeSinceLastAttack == Reset && events == old(events) + [AttackTriggered]
      ensures !old(timeSinceLastAttack).Exceeds(timeBetweenAttacks) ==>
        timeSinceLastAttack == old(timeSinceLastAttack) && events == old(events)
    {
      timeOutOfCombat := Reset;
      if timeSinceLastAttack.Exceeds(timeBetweenAttacks) {
        events := events + [AttackTriggered];
        timeSinceLastAttack := Reset;
      }
    }

    /** Starts the attack action and targets the combat target's health component (null when it has none). */
    method Attack(combatTargetHealth: Health?)
      modifies this`target, this`events
      ensures target == combatTargetHealth
      ensures events == old(events) + [ActionStarted]
    {
      events := events + [ActionStarted];
      target := combatTargetHealth;
    }

    /** Stops the attack animation, cancels movement and clears the target. */
    method Cancel()
      modifies this`target, this`events
      ensures target == null
      ensures events == old(events) + [AttackStopped, CancelMovement]
    {
      events := events + [AttackStopped, CancelMovement];
      target := null;
    }

    /**
     * The animation's hit event: nothing without a target; otherwise the
     * weapon's hit effect (when a weapon instance exists) and then exactly one
     * of a projectile launch or direct damage, whether or not the target is
     * dead. `damage` is the fighter's Damage stat, `source` its Experience
     * component and `experienceReward` the target's reward stat.
     */
    method Hit(damage: real, hasWeaponInstance: bool, source: Experience?, experienceReward: real)
      modifies this`events, target, source
      ensures target == null ==> events == old(events)
      ensures target != null && weapon.hasProjectile ==>
        events == old(events) + (if hasWeaponInstance then [WeaponHit] else []) + [ProjectileLaunched(damage)] &&
        target.State() == old(target.State()) && target.events == old(target.events)
      ensures target != null && !weapon.hasProjectile ==>
        events == old(events) + (if hasWeaponInstance then [WeaponHit] else []) &&
        target.State() == Apply(old(target.State()), Damage(damage))
      ensures target != null && !weapon.hasProjectile ==>
        && (target.healthPoints == 0.0 ==>
              target.events == old(target.events) + [NoHealthLeft, Died] + DieEvents(old(target.hasDied)))
        && (target.healthPoints != 0.0 ==> target.events == old(target.events) + [HealthUpdated, DamageTaken(damage)])
      ensures target != null && !weapon.hasProjectile && source != null ==>
        source.experiencePoints == old(source.experiencePoints) + (if target.healthPoints == 0.0 then experienceReward else 0.0) &&
        source.gainedEvents == old(source.gainedEvents) + (if target.healthPoints == 0.0 then 1 else 0)
      ensures (target == null || weapon.hasProjectile) && source != null ==>
        source.experiencePoints == old(source.experiencePoints) && source.gainedEvents == old(source.gainedEvents)
    {
      if target == null {
        return;
      }
      if hasWeaponInstance {
        events := events + [WeaponHit];
      }
      if weapon.hasProjectile {
        events := events + [ProjectileLaunched(damage)];
      } else {
        target.TakeDamage(source, damage, experienceReward);
      }
    }
  }
}
