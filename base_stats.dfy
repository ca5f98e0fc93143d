/**
 * The stats of one character: a stat value is the progression value at the
 * current level plus the additive modifiers, scaled by the percentage
 * modifiers; the level is computed from experience against the
 * "experience to level up" thresholds and is only ever raised.
 *
 * The modifier providers (the character's IModifierProvider components) are
 * given as what each one yields for the queried stat.
 */
module BaseStats {
  import opened Basics
  import opened Progression
  import opened Experience

  /** The sum of every value yielded by every provider. */
  function ModifierTotal(providers: seq<seq<real>>): real
    decreases |providers|
  {
    if providers == [] then 0.0
    else ModifierTotal(providers[..|providers| - 1]) + Sum(providers[|providers| - 1])
  }

  function Sum(values: seq<real>): real
    decreases |values|
  {
    if values == [] then 0.0 else Sum(values[..|values| - 1]) + values[|values| - 1]
  }

  /** Every provider's contribution counts once, whichever way the providers are grouped. */
  lemma {:induction false} ModifierTotalSplits(a: seq<seq<real>>, b: seq<seq<real>>)
    ensures ModifierTotal(a + b) == ModifierTotal(a) + ModifierTotal(b)
    decreases |b|
  {
    if b != [] {
      assert (a + b)[..|a + b| - 1] == a + b[..|b| - 1];
      assert (a + b)[|a + b| - 1] == b[|b| - 1];
      ModifierTotalSplits(a, b[..|b| - 1]);
    } else {
      assert a + b == a;
    }
  }

  /** The same for the values of one provider. */
  lemma {:induction false} SumSplits(a: seq<real>, b: seq<real>)
    ensures Sum(a + b) == Sum(a) + Sum(b)
    decreases |b|
  {
    if b != [] {
      assert (a + b)[..|a + b| - 1] == a + b[..|b| - 1];
      assert (a + b)[|a + b| - 1] == b[|b| - 1];
      SumSplits(a, b[..|b| - 1]);
    } else {
      assert a + b == a;
    }
  }

  /** Providers that yield nothing for a stat do not change the total. */
  lemma {:induction false} SilentProvidersAddNothing(providers: seq<seq<real>>)
    requires forall i :: 0 <= i < |providers| ==> providers[i] == []
    ensures ModifierTotal(providers) == 0.0
    decreases |providers|
  {
    if providers != [] {
      SilentProvidersAddNothing(providers[..|providers| - 1]);
    }
  }

  /** The stat formula: the additive modifiers are added before the percentage is applied. */
  function StatFormula(baseStat: real, additive: real, percentage: real): real
  {
    (baseStat + additive) * (1.0 + percentage / 100.0)
  }

  /** Without percentage modifiers the stat is the base plus the additive bonus; with neither, the base itself. */
  lemma StatFormulaNeutral(baseStat: real, additive: real)
    ensures StatFormula(baseStat, additive, 0.0) == baseStat + additive
    ensures StatFormula(baseStat, 0.0, 0.0) == baseStat
  {
  }

  /** The percentage applies to the additive bonus too: each extra additive point is worth (1 + pct/100). */
  lemma PercentageScalesAdditive(baseStat: real, additive: real, extra: real, percentage: real)
    ensures StatFormula(baseStat, additive + extra, percentage)
         == StatFormula(baseStat, additive, percentage) + extra * (1.0 + percentage / 100.0)
  {
  }

  /**
   * `CalculateLevel` on the thresholds and the current experience: the first
   * level l in 1..n whose threshold exceeds the experience, and n + 1 when
   * there is none (n is the length of the threshold array).
   */
  function LevelFor(thresholds: seq<real>, xp: real): int
  {
    LevelFrom(thresholds, xp, 1)
  }

  function LevelFrom(thresholds: seq<real>, xp: real, level: int): int
    requires level >= 1
    decreases |thresholds| + 1 - level
  {
    if level > |thresholds| then |thresholds| + 1
    else if thresholds[level - 1] > xp then level
    else LevelFrom(thresholds, xp, level + 1)
  }

  lemma {:induction false} LevelFromCharacterized(thresholds: seq<real>, xp: real, level: int)
    requires 1 <= level <= |thresholds| + 1
    requires forall k :: 0 <= k < level - 1 ==> thresholds[k] <= xp
    ensures var r := LevelFrom(thresholds, xp, level);
      && level <= r <= |thresholds| + 1
      && (forall k :: 0 <= k < r - 1 ==> thresholds[k] <= xp)
      && (r <= |thresholds| ==> thresholds[r - 1] > xp)
    decreases |thresholds| + 1 - level
  {
    if level <= |thresholds| && thresholds[level - 1] <= xp {
      LevelFromCharacterized(thresholds, xp, level + 1);
    }
  }

  /**
   * The level lies in [1, n + 1]; every level below it has a threshold the
   * experience has reached; and below n + 1, its own threshold is above the
   * experience. These three facts determine the level.
   */
  lemma LevelForCharacterized(thresholds: seq<real>, xp: real)
    ensures var r := LevelFor(thresholds, xp);
      && 1 <= r <= |thresholds| + 1
      && (forall k :: 0 <= k < r - 1 ==> thresholds[k] <= xp)
      && (r <= |thresholds| ==> thresholds[r - 1] > xp)
  {
    LevelFromCharacterized(thresholds, xp, 1);
  }

  /** More experience never means a lower level, whatever the thresholds are. */
  lemma LevelMonotone(thresholds: seq<real>, xp1: real, xp2: real)
    requires xp1 <= xp2
    ensures LevelFor(thresholds, xp1) <= LevelFor(thresholds, xp2)
  {
    LevelForCharacterized(thresholds, xp1);
    LevelForCharacterized(thresholds, xp2);
  }

  /** The "experience to level up" thresholds of a class, as the progression table holds them. */
  function Thresholds(progression: Progression, characterClass: CharacterClass): seq<real>
    requires HasEntry(progression.Table(), characterClass, ExperienceToLevelUp)
  {
    progression.Table()[characterClass][ExperienceToLevelUp]
  }

  /** Adds up the modifiers of every provider, or yields 0 when modifiers are switched off. */
  method SumModifiers(shouldUseModifiers: bool, providers: seq<seq<real>>) returns (total: real)
    ensures total == if shouldUseModifiers then ModifierTotal(providers) else 0.0
  {
    if !shouldUseModifiers {
      return 0.0;
    }
    total := 0.0;
    var i := 0;
    while i < |providers|
      invariant 0 <= i <= |providers|
      invariant total == ModifierTotal(providers[..i])
    {
      var provided := providers[i];
      var j := 0;
      ghost var before := total;
      while j < |provided|
        invariant 0 <= j <= |provided|
        invariant total == before + Sum(provided[..j])
      {
        total := total + provided[j];
        assert provided[..j + 1][..j] == provided[..j];
        j := j + 1;
      }
      assert provided[..j] == provided;
      assert providers[..i + 1][..i] == providers[..i];
      i := i + 1;
    }
    assert providers[..i] == providers;
  }

  class BaseStats {
    const startingLevel: int
    const shouldUseModifiers: bool
    const characterClass: CharacterClass
    const progression: Progression
    const experience: Experience?
    /** The lazily computed level (`LazyValue<int>`): None until first read. */
    var currentLevel: Option<int>
    /** How many level-ups have fired (`onLevelUp` together with `onLevelUpdated`). */
    var levelUps: nat

    ghost predicate Valid()
      reads this, progression
    {
      && 1 <= startingLevel
      && progression.Valid()
      && (experience != null ==> HasEntry(progression.Table(), characterClass, ExperienceToLevelUp))
      && (currentLevel.Some? ==> currentLevel.value >= 1)
    }

    constructor (startingLevel: int, shouldUseModifiers: bool, characterClass: CharacterClass,
                 progression: Progression, experience: Experience?)
      requires 1 <= startingLevel <= 99
      requires progression.Valid()
      requires experience != null ==> HasEntry(progression.Table(), characterClass, ExperienceToLevelUp)
      ensures Valid() && currentLevel == None && levelUps == 0
      ensures this.startingLevel == startingLevel && this.shouldUseModifiers == shouldUseModifiers
      ensures this.characterClass == characterClass
      ensures this.progression == progression && this.experience == experience
    {
      this.startingLevel := startingLevel;
      this.shouldUseModifiers := shouldUseModifiers;
      this.characterClass := characterClass;
      this.progression := progression;
      this.experience := experience;
      currentLevel := None;
      levelUps := 0;
    }

    /** The level experience earns: the starting level without an Experience component. */
    ghost function EarnedLevel(): int
      reads this, experience
      requires experience != null ==> HasEntry(progression.Table(), characterClass, ExperienceToLevelUp)
    {
      if experience == null then startingLevel
      else LevelFor(Thresholds(progression, characterClass), experience.experiencePoints)
    }

    method CalculateLevel() returns (level: int)
      requires Valid()
      modifies progression`searchTable
      ensures Valid()
      ensures level == EarnedLevel() && level >= 1
    {
      if experience == null {
        return startingLevel;
      }
      var currentXP := experience.GetExperience();
      var penultimateLevel := progression.GetLevels(ExperienceToLevelUp, characterClass);
      ghost var thresholds := Thresholds(progression, characterClass);
      LevelForCharacterized(thresholds, currentXP);
      var l := 1;
      while l <= penultimateLevel
        invariant 1 <= l <= penultimateLevel + 1
        invariant progression.Valid() && progression.searchTable.Some?
        invariant forall k :: 0 <= k < l - 1 ==> thresholds[k] <= currentXP
      {
        var xpToLevelUp := progression.GetStat(ExperienceToLevelUp, characterClass, l);
        if xpToLevelUp > currentXP {
          LevelFirstAbove(thresholds, currentXP, l);
          return l;
        }
        l := l + 1;
      }
      LevelFirstAbove(thresholds, currentXP, penultimateLevel + 1);
      return penultimateLevel + 1;
    }

    /** `GetLevel`: the stored level, computing it on first use. */
    method GetLevel() returns (level: int)
      requires Valid()
      modifies this`currentLevel, progression`searchTable
      ensures Valid() && currentLevel == Some(level)
      ensures old(currentLevel).Some? ==> level == old(currentLevel).value
      ensures old(currentLevel).None? ==> level == old(EarnedLevel())
    {
      if currentLevel.None? {
        var l := CalculateLevel();
        currentLevel := Some(l);
      }
      level := currentLevel.value;
    }

    /**
     * After experience is gained: the level becomes the earned level if that
     * is strictly higher, and exactly then one level-up fires.
     */
    method UpdateLevel()
      requires Valid()
      modifies this`currentLevel, this`levelUps, progression`searchTable
      ensures Valid() && currentLevel.Some?
      ensures var before := if old(currentLevel).Some? then old(currentLevel).value else old(EarnedLevel());
        && currentLevel.value == (if old(EarnedLevel()) > before then old(EarnedLevel()) else before)
        && levelUps == old(levelUps) + (if old(EarnedLevel()) > before then 1 else 0)
    {
      var newLevel := CalculateLevel();
      var current := GetLevel();
      if newLevel > current {
        currentLevel := Some(newLevel);
        levelUps := levelUps + 1;
      }
    }

    /**
     * `GetStat`: the progression value at the current level, plus the
     * additive modifiers, scaled by the percentage modifiers.
     */
    method GetStat(stat: Stat, additive: seq<seq<real>>, percentage: seq<seq<real>>) returns (r: real)
      requires Valid() && HasEntry(progression.Table(), characterClass, stat)
      modifies this`currentLevel, progression`searchTable
      ensures Valid() && currentLevel.Some?
      ensures old(currentLevel).Some? ==> currentLevel == old(currentLevel)
      ensures old(currentLevel).None? ==> currentLevel == Some(old(EarnedLevel()))
      ensures r == StatFormula(StatAt(progression.Table()[characterClass][stat], currentLevel.value),
                               if shouldUseModifiers then ModifierTotal(additive) else 0.0,
                               if shouldUseModifiers then ModifierTotal(percentage) else 0.0)
    {
      var level := GetLevel();
      var baseStat := progression.GetStat(stat, characterClass, level);
      var add := SumModifiers(shouldUseModifiers, additive);
      var pct := SumModifiers(shouldUseModifiers, percentage);
      r := (baseStat + add) * (1.0 + pct / 100.0);
    }
  }

  /** A level whose threshold is above the experience, with every earlier threshold reached, is the earned level. */
  lemma LevelFirstAbove(thresholds: seq<real>, xp: real, level: int)
    requires 1 <= level <= |thresholds| + 1
    requires forall k :: 0 <= k < level - 1 ==> thresholds[k] <= xp
    requires level <= |thresholds| ==> thresholds[level - 1] > xp
    ensures LevelFor(thresholds, xp) == level
  {
    LevelForCharacterized(thresholds, xp);
  }

  /** The earned level never falls as experience grows, so `UpdateLevel` after a gain of x >= 0 never lowers it. */
  lemma GainNeverLowersEarnedLevel(thresholds: seq<real>, xp: real, gain: real)
    requires gain >= 0.0
    ensures LevelFor(thresholds, xp + gain) >= LevelFor(thresholds, xp)
  {
    LevelMonotone(thresholds, xp, xp + gain);
  }
}
