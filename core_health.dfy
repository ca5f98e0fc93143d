/**
 * The older health component (`RPG.Core`): 100 health to start, damage
 * clamped at zero, and a one-shot death when health reaches zero. Its damage
 * rule is the same as that of the `RPG.Attributes` component, so the model
 * reuses that component's `Apply` on `Vitals`.
 */
module CoreHealth {
  import opened Basics
  import opened Attributes

  /** Engine calls made on death: the "die" animation trigger and cancelling the current action. */
  datatype DeathCall = DieAnimationCall | CancelActionCall

  class LegacyHealth {
    var healthPoints: real
    var hasDied: bool
    var deathCalls: seq<DeathCall>

    function State(): Vitals
      reads this
    {
      Vitals(healthPoints, hasDied)
    }

    /** The serialized default: alive with 100 health. */
    constructor ()
      ensures State() == Vitals(100.0, false) && deathCalls == []
    {
      healthPoints := 100.0;
      hasDied := false;
      deathCalls := [];
    }

    predicate IsDead()
      reads this
    {
      hasDied
    }

    method TakeDamage(damage: real)
      modifies this
      ensures State() == Apply(old(State()), Damage(damage))
      ensures deathCalls == old(deathCalls) +
        (if healthPoints == 0.0 && !old(hasDied) then [DieAnimationCall, CancelActionCall] else [])
    {
      healthPoints := MaxReal(healthPoints - damage, 0.0);
      if healthPoints == 0.0 {
        Die();
      }
    }

    /** Sets the death flag once; a second call changes nothing. */
    method Die()
      modifies this
      ensures hasDied && healthPoints == old(healthPoints)
      ensures deathCalls == old(deathCalls) + (if old(hasDied) then [] else [DieAnimationCall, CancelActionCall])
    {
      if hasDied {
        return;
      }
      hasDied := true;
      deathCalls := deathCalls + [DieAnimationCall, CancelActionCall];
    }
  }

  /** Damage from a fresh component: dead exactly when the hits add up to at least 100. */
  lemma {:induction false} FreshComponentDiesAtHundred(hits: seq<real>)
    requires forall i :: 0 <= i < |hits| ==> hits[i] >= 0.0
    ensures ApplyAll(Vitals(100.0, false), Damages(hits)).dead <==> Total(hits) >= 100.0
  {
    DamagesFromLive(100.0, hits);
  }

  function Damages(hits: seq<real>): (ops: seq<HealthOp>)
    ensures |ops| == |hits|
    ensures forall i :: 0 <= i < |hits| ==> ops[i] == Damage(hits[i])
  {
    if hits == [] then [] else [Damage(hits[0])] + Damages(hits[1..])
  }

  function Total(hits: seq<real>): real
  {
    if hits == [] then 0.0 else hits[0] + Total(hits[1..])
  }

  lemma {:induction false} DamagesFromLive(hp: real, hits: seq<real>)
    requires hp > 0.0
    requires forall i :: 0 <= i < |hits| ==> hits[i] >= 0.0
    ensures ApplyAll(Vitals(hp, false), Damages(hits)).dead <==> Total(hits) >= hp
    ensures !ApplyAll(Vitals(hp, false), Damages(hits)).dead ==>
      ApplyAll(Vitals(hp, false), Damages(hits)).hp == hp - Total(hits)
    decreases |hits|
  {
    if hits != [] {
      var ops := Damages(hits);
      assert ops[1..] == Damages(hits[1..]);
      var next := Apply(Vitals(hp, false), Damage(hits[0]));
      if next.dead {
        DeathIsPermanent(next, ops[1..]);
        TotalNonNegative(hits[1..]);
      } else {
        DamagesFromLive(hp - hits[0], hits[1..]);
      }
    }
  }

  lemma {:induction false} TotalNonNegative(hits: seq<real>)
    requires forall i :: 0 <= i < |hits| ==> hits[i] >= 0.0
    ensures Total(hits) >= 0.0
    decreases |hits|
  {
    if hits != [] {
      TotalNonNegative(hits[1..]);
    }
  }
}
