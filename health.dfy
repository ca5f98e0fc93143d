/**
 * The health of a character (the `RPG.Attributes` version): damage clamped at
 * zero, a one-shot death, healing clamped at the maximum, regeneration on
 * level-up that never lowers health, an experience award to the attacker on
 * every hit that leaves health at zero, and save/restore of the health value.
 *
 * The maximum health and the experience reward come from the character's
 * stats; they are parameters here. Events (`onHealthUpdated`, `takeDamage`,
 * `onNoHealthLeft`, `onDied`) and the engine calls made on death (the "die"
 * animation trigger, cancelling the current action) are recorded in a log.
 */
module Attributes {
  import opened Basics
  import opened SaveState
  import opened Experience

  datatype HealthEvent =
    | HealthUpdated
    | DamageTaken(amount: real)
    | NoHealthLeft
    | Died
    | DieAnimation
    | ActionCancelled

  /** The two quantities the health component keeps. */
  datatype Vitals = Vitals(hp: real, dead: bool)

  /** Everything that changes health. */
  datatype HealthOp =
    | Damage(damage: real)
    | Healing(healthToRestore: real, maxHealth: real)
    | Regenerate(maxHealth: real, regenerationPercentage: real)
    | Restore(saved: real)

  /** The effect of one operation on health and on the death flag. */
  function Apply(v: Vitals, op: HealthOp): Vitals
  {
    match op
    case Damage(d) =>
      var h := MaxReal(v.hp - d, 0.0);
      Vitals(h, v.dead || h == 0.0)
    case Healing(a, m) => Vitals(MinReal(v.hp + a, m), v.dead)
    case Regenerate(m, pct) => Vitals(MaxReal(v.hp, m * (pct / 100.0)), v.dead)
    case Restore(s) => Vitals(s, v.dead || s == 0.0)
  }

  function ApplyAll(v: Vitals, ops: seq<HealthOp>): Vitals
    decreases |ops|
  {
    if ops == [] then v else ApplyAll(Apply(v, ops[0]), ops[1..])
  }

  /** Damage never leaves health negative, and leaves it at zero exactly when it was at least the health left. */
  lemma DamageClampsAtZero(v: Vitals, d: real)
    ensures Apply(v, Damage(d)).hp >= 0.0
    ensures Apply(v, Damage(d)).hp == 0.0 <==> v.hp <= d
    ensures d >= 0.0 ==> Apply(v, Damage(d)).hp <= MaxReal(v.hp, 0.0)
  {
  }

  /** Damage that leaves health at zero kills; damage that does not leaves the death flag as it was. */
  lemma DamageKillsAtZero(v: Vitals, d: real)
    ensures Apply(v, Damage(d)).dead <==> v.dead || v.hp <= d
  {
  }

  /** Healing never goes above the maximum, and never lowers health that is below the maximum. */
  lemma HealClampsAtMax(v: Vitals, a: real, m: real)
    ensures Apply(v, Healing(a, m)).hp <= m
    ensures a >= 0.0 && v.hp <= m ==> Apply(v, Healing(a, m)).hp >= v.hp
    ensures Apply(v, Healing(a, m)).dead == v.dead
  {
  }

  /** Regeneration never lowers health, and tops it up to the regenerated share when below it. */
  lemma RegenerationNeverLowers(v: Vitals, m: real, pct: real)
    ensures Apply(v, Regenerate(m, pct)).hp >= v.hp
    ensures Apply(v, Regenerate(m, pct)).hp >= m * pct / 100.0
    ensures Apply(v, Regenerate(m, pct)).dead == v.dead
  {
  }

  /** Once dead, always dead: no sequence of operations clears the flag. */
  lemma {:induction false} DeathIsPermanent(v: Vitals, ops: seq<HealthOp>)
    requires v.dead
    ensures ApplyAll(v, ops).dead
    decreases |ops|
  {
    if ops != [] {
      DeathIsPermanent(Apply(v, ops[0]), ops[1..]);
    }
  }

  /** A sequence of operations that ends alive started alive and never brought health to zero along the way. */
  lemma {:induction false} AliveAtEndMeansAliveThroughout(v: Vitals, ops: seq<HealthOp>, k: nat)
    requires k <= |ops|
    requires !ApplyAll(v, ops).dead
    ensures !ApplyAll(v, ops[..k]).dead
    decreases |ops|
  {
    if ops != [] && k > 0 {
      assert ops[..k][1..] == ops[1..][..k - 1];
      AliveAtEndMeansAliveThroughout(Apply(v, ops[0]), ops[1..], k - 1);
    } else if ops != [] {
      assert ops[..k] == [];
      if v.dead {
        DeathIsPermanent(v, ops);
      }
    }
  }

  /** The events and engine calls of `Die`: nothing on a second call. */
  function DieEvents(alreadyDead: bool): seq<HealthEvent>
  {
    if alreadyDead then [] else [DieAnimation, ActionCancelled]
  }

  class Health {
    const regenerationPercentage: real
    var healthPoints: real
    var hasDied: bool
    var events: seq<HealthEvent>

    function State(): Vitals
      reads this
    {
      Vitals(healthPoints, hasDied)
    }

    /** A fresh component: alive, with the initial health drawn from its stats (`GetInitialHealth`). */
    constructor (initialHealth: real, regenerationPercentage: real)
      ensures State() == Vitals(initialHealth, false) && events == []
      ensures this.regenerationPercentage == regenerationPercentage
    {
      this.regenerationPercentage := regenerationPercentage;
      healthPoints := initialHealth;
      hasDied := false;
      events := [];
    }

    predicate IsDead()
      reads this
    {
      hasDied
    }

    function GetHealth(): real
      reads this
    {
      healthPoints
    }

    /**
     * Takes `damage`. When health reaches zero: `onNoHealthLeft`, `onDied`,
     * `Die` and the experience award to the attacker, which happens again on
     * every such hit, also on an entity that is already dead. Otherwise only
     * the health-updated and take-damage notifications fire.
     * `source` is the attacker's Experience component, null when it has none.
     */
    method TakeDamage(source: Experience?, damage: real, experienceReward: real)
      modifies this, source
      ensures State() == Apply(old(State()), Damage(damage))
      ensures healthPoints == 0.0 ==>
        events == old(events) + [NoHealthLeft, Died] + DieEvents(old(hasDied))
      ensures healthPoints != 0.0 ==>
        events == old(events) + [HealthUpdated, DamageTaken(damage)]
      ensures source != null && healthPoints == 0.0 ==>
        source.experiencePoints == old(source.experiencePoints) + experienceReward &&
        source.gainedEvents == old(source.gainedEvents) + 1
      ensures source != null && healthPoints != 0.0 ==>
        source.experiencePoints == old(source.experiencePoints) &&
        source.gainedEvents == old(source.gainedEvents)
    {
      healthPoints := MaxReal(healthPoints - damage, 0.0);
      if healthPoints == 0.0 {
        events := events + [NoHealthLeft, Died];
        Die();
        RewardExperience(source, experienceReward);
      } else {
        events := events + [HealthUpdated, DamageTaken(damage)];
      }
    }

    /** Sets the death flag once; a second call changes nothing. */
    method Die()
      modifies this
      ensures hasDied && healthPoints == old(healthPoints)
      ensures events == old(events) + DieEvents(old(hasDied))
    {
      if hasDied {
        return;
      }
      hasDied := true;
      events := events + [DieAnimation, ActionCancelled];
    }

    /** The attacker gains the reward only if it has an Experience component. */
    static method RewardExperience(source: Experience?, experienceReward: real)
      modifies source
      ensures source != null ==>
        source.experiencePoints == old(source.experiencePoints) + experienceReward &&
        source.gainedEvents == old(source.gainedEvents) + 1
    {
      if source == null {
        return;
      }
      source.GainExperience(experienceReward);
    }

    /** On level-up: health rises to the regenerated share of the maximum if it was below it. */
    method RegenerateHealth(maxHealth: real)
      modifies this
      ensures State() == Apply(old(State()), Regenerate(maxHealth, regenerationPercentage))
      ensures events == old(events) + [HealthUpdated]
    {
      var regenHealthPoints := maxHealth * (regenerationPercentage / 100.0);
      healthPoints := MaxReal(healthPoints, regenHealthPoints);
      events := events + [HealthUpdated];
    }

    method Heal(healthToRestore: real, maxHealth: real)
      modifies this
      ensures State() == Apply(old(State()), Healing(healthToRestore, maxHealth))
      ensures events == old(events) + [HealthUpdated]
    {
      healthPoints := MinReal(healthPoints + healthToRestore, maxHealth);
      events := events + [HealthUpdated];
    }

    function CaptureState(): (s: State)
      reads this
      ensures s.FloatState? && s.f == healthPoints
    {
      FloatState(healthPoints)
    }

    /** The saved value must be a float (`(float)state`); restoring 0 runs the death path. */
    method RestoreState(state: State)
      requires state.FloatState?
      modifies this
      ensures State() == Apply(old(State()), Restore(state.f))
      ensures events == old(events) + (if state.f == 0.0 then DieEvents(old(hasDied)) else [])
    {
      healthPoints := state.f;
      if healthPoints == 0.0 {
        Die();
      }
    }
  }

  /** Capturing and restoring into a fresh component reproduces the health value; a saved 0 comes back dead. */
  method CaptureRestoreRoundTrip(saved: Health, restored: Health)
    requires saved != restored
    modifies restored
    ensures restored.healthPoints == saved.healthPoints
    ensures restored.hasDied == (old(restored.hasDied) || saved.healthPoints == 0.0)
  {
    var s := saved.CaptureState();
    restored.RestoreState(s);
  }
}
