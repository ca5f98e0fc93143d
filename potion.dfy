/**
 * A potion: using it heals the user by a fixed amount (when that amount is
 * positive), and as a modifier provider it yields one additive and one
 * percentage bonus for the stat it modifies and nothing for any other stat.
 */
module Consumables {
  import opened Progression
  import opened Attributes
  import BaseStats

  datatype PotionConfig = PotionConfig(
    amountToRestore: real,
    additiveBuffAmount: real,
    percentageBuffAmount: real,
    statToModify: Stat)

  function GetAdditiveModifiers(p: PotionConfig, stat: Stat): (r: seq<real>)
    ensures stat == p.statToModify ==> r == [p.additiveBuffAmount]
    ensures stat != p.statToModify ==> r == []
  {
    if stat == p.statToModify then [p.additiveBuffAmount] else []
  }

  function GetPercentageModifiers(p: PotionConfig, stat: Stat): (r: seq<real>)
    ensures stat == p.statToModify ==> r == [p.percentageBuffAmount]
    ensures stat != p.statToModify ==> r == []
  {
    if stat == p.statToModify then [p.percentageBuffAmount] else []
  }

  /**
   * Among other providers, a potion adds its buff to the stat it modifies and
   * nothing to any other stat: the totals `GetStat` uses differ by exactly that.
   */
  lemma PotionContribution(before: seq<seq<real>>, after: seq<seq<real>>, p: PotionConfig, stat: Stat)
    ensures BaseStats.ModifierTotal(before + [GetAdditiveModifiers(p, stat)] + after)
         == BaseStats.ModifierTotal(before) + BaseStats.ModifierTotal(after)
            + (if stat == p.statToModify then p.additiveBuffAmount else 0.0)
    ensures BaseStats.ModifierTotal(before + [GetPercentageModifiers(p, stat)] + after)
         == BaseStats.ModifierTotal(before) + BaseStats.ModifierTotal(after)
            + (if stat == p.statToModify then p.percentageBuffAmount else 0.0)
  {
    var add := [GetAdditiveModifiers(p, stat)];
    var pct := [GetPercentageModifiers(p, stat)];
    BaseStats.ModifierTotalSplits(before + add, after);
    BaseStats.ModifierTotalSplits(before, add);
    BaseStats.ModifierTotalSplits(before + pct, after);
    BaseStats.ModifierTotalSplits(before, pct);
    assert BaseStats.ModifierTotal(add) == BaseStats.Sum(add[0]) by {
      assert add[..0] == [];
    }
    assert BaseStats.ModifierTotal(pct) == BaseStats.Sum(pct[0]) by {
      assert pct[..0] == [];
    }
    assert BaseStats.Sum([p.additiveBuffAmount]) == p.additiveBuffAmount by {
      assert [p.additiveBuffAmount][..0] == [];
    }
    assert BaseStats.Sum([p.percentageBuffAmount]) == p.percentageBuffAmount by {
      assert [p.percentageBuffAmount][..0] == [];
    }
  }

  /** Heals the user by the amount to restore, capped at its maximum health; a non-positive amount does nothing. */
  method Use(p: PotionConfig, user: Health, maxHealth: real)
    modifies user
    ensures p.amountToRestore > 0.0 ==>
      user.State() == Apply(old(user.State()), Healing(p.amountToRestore, maxHealth)) &&
      user.events == old(user.events) + [HealthUpdated]
    ensures p.amountToRestore <= 0.0 ==>
      user.State() == old(user.State()) && user.events == old(user.events)
  {
    if p.amountToRestore > 0.0 {
      user.Heal(p.amountToRestore, maxHealth);
    }
  }
}
