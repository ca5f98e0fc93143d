/**
 * The progression table: for each character class and stat, one value per
 * level. Lookups go through a search table that is built lazily, once, from
 * the serialized list of classes; a later entry for the same class or stat
 * overwrites an earlier one.
 */
module Progression {
  import opened Basics

  /** The stats the core refers to (Stat.cs is not part of this model; these are the members used). */
  datatype Stat = Health | ExperienceReward | ExperienceToLevelUp | Damage

  /** A character class, identified by its enum name (CharacterClass.cs is not part of this model). */
  type CharacterClass = string

  datatype ProgressionStat = ProgressionStat(stat: Stat, values: seq<real>)

  datatype ProgressionCharacterClass =
    ProgressionCharacterClass(characterClass: CharacterClass, stats: seq<ProgressionStat>)

  type SearchTable = map<CharacterClass, map<Stat, seq<real>>>

  /** The per-class dictionary: entries are added in order, so the last one for a stat wins. */
  function StatTable(stats: seq<ProgressionStat>): map<Stat, seq<real>>
    decreases |stats|
  {
    if stats == [] then map[]
    else StatTable(stats[..|stats| - 1])[stats[|stats| - 1].stat := stats[|stats| - 1].values]
  }

  /** The whole search table, built in the same order. */
  function BuildTable(classes: seq<ProgressionCharacterClass>): SearchTable
    decreases |classes|
  {
    if classes == [] then map[]
    else
      var last := classes[|classes| - 1];
      BuildTable(classes[..|classes| - 1])[last.characterClass := StatTable(last.stats)]
  }

  /** A stat is in the per-class dictionary exactly when some entry names it, and then holds the last such entry's values. */
  lemma {:induction false} StatTableLastWins(stats: seq<ProgressionStat>, i: nat)
    requires i < |stats|
    requires forall j :: i < j < |stats| ==> stats[j].stat != stats[i].stat
    ensures stats[i].stat in StatTable(stats)
    ensures StatTable(stats)[stats[i].stat] == stats[i].values
    decreases |stats|
  {
    if i < |stats| - 1 {
      StatTableLastWins(stats[..|stats| - 1], i);
    }
  }

  lemma {:induction false} StatTableKeys(stats: seq<ProgressionStat>, s: Stat)
    ensures s in StatTable(stats) <==> exists i :: 0 <= i < |stats| && stats[i].stat == s
    decreases |stats|
  {
    if stats != [] {
      var init := stats[..|stats| - 1];
      StatTableKeys(init, s);
      if s in StatTable(init) {
        var i :| 0 <= i < |init| && init[i].stat == s;
        assert stats[i].stat == s;
      }
      if exists i :: 0 <= i < |stats| && stats[i].stat == s {
        var i :| 0 <= i < |stats| && stats[i].stat == s;
        if i < |init| {
          assert init[i].stat == s;
        }
      }
    }
  }

  /** The same two facts for classes: the last entry for a class supplies that class's dictionary. */
  lemma {:induction false} BuildTableLastWins(classes: seq<ProgressionCharacterClass>, i: nat)
    requires i < |classes|
    requires forall j :: i < j < |classes| ==> classes[j].characterClass != classes[i].characterClass
    ensures classes[i].characterClass in BuildTable(classes)
    ensures BuildTable(classes)[classes[i].characterClass] == StatTable(classes[i].stats)
    decreases |classes|
  {
    if i < |classes| - 1 {
      BuildTableLastWins(classes[..|classes| - 1], i);
    }
  }

  lemma {:induction false} BuildTableKeys(classes: seq<ProgressionCharacterClass>, c: CharacterClass)
    ensures c in BuildTable(classes) <==> exists i :: 0 <= i < |classes| && classes[i].characterClass == c
    decreases |classes|
  {
    if classes != [] {
      var init := classes[..|classes| - 1];
      BuildTableKeys(init, c);
      if c in BuildTable(init) {
        var i :| 0 <= i < |init| && init[i].characterClass == c;
        assert classes[i].characterClass == c;
      }
      if exists i :: 0 <= i < |classes| && classes[i].characterClass == c {
        var i :| 0 <= i < |classes| && classes[i].characterClass == c;
        if i < |init| {
          assert init[i].characterClass == c;
        }
      }
    }
  }

  /** The class and the stat are both in the table: a missing key is a lookup failure in the source. */
  predicate HasEntry(table: SearchTable, c: CharacterClass, s: Stat) {
    c in table && s in table[c]
  }

  /** `GetStat` on one value array: 0 past the end of the array, otherwise the value for that level. */
  function StatAt(values: seq<real>, level: int): (r: real)
    requires level >= 1
    ensures |values| < level ==> r == 0.0
    ensures level <= |values| ==> r == values[level - 1]
  {
    if |values| < level then 0.0 else values[level - 1]
  }

  class Progression {
    const characterClasses: seq<ProgressionCharacterClass>
    var searchTable: Option<SearchTable>

    ghost predicate Valid()
      reads this
    {
      searchTable.Some? ==> searchTable.value == BuildTable(characterClasses)
    }

    /** The table every lookup answers from, whether or not it has been built yet. */
    function Table(): SearchTable
    {
      BuildTable(characterClasses)
    }

    constructor (characterClasses: seq<ProgressionCharacterClass>)
      ensures Valid() && searchTable == None
      ensures this.characterClasses == characterClasses
    {
      this.characterClasses := characterClasses;
      searchTable := None;
    }

    /** Builds the table on the first call; later calls reuse it. */
    method GenerateSearchTable()
      requires Valid()
      modifies this`searchTable
      ensures Valid() && searchTable == Some(Table())
      ensures old(searchTable).Some? ==> searchTable == old(searchTable)
    {
      if searchTable.Some? {
        return;
      }
      var table: SearchTable := map[];
      var i := 0;
      while i < |characterClasses|
        invariant 0 <= i <= |characterClasses|
        invariant table == BuildTable(characterClasses[..i])
      {
        var progressionClass := characterClasses[i];
        var statSearchTable: map<Stat, seq<real>> := map[];
        var j := 0;
        while j < |progressionClass.stats|
          invariant 0 <= j <= |progressionClass.stats|
          invariant statSearchTable == StatTable(progressionClass.stats[..j])
        {
          var progressionStat := progressionClass.stats[j];
          statSearchTable := statSearchTable[progressionStat.stat := progressionStat.values];
          assert progressionClass.stats[..j + 1][..j] == progressionClass.stats[..j];
          j := j + 1;
        }
        assert progressionClass.stats[..j] == progressionClass.stats;
        table := table[progressionClass.characterClass := statSearchTable];
        assert characterClasses[..i + 1][..i] == characterClasses[..i];
        i := i + 1;
      }
      assert characterClasses[..i] == characterClasses;
      searchTable := Some(table);
    }

    method GetStat(stat: Stat, characterClass: CharacterClass, level: int) returns (r: real)
      requires Valid() && HasEntry(Table(), characterClass, stat)
      requires level >= 1
      modifies this`searchTable
      ensures Valid() && searchTable == Some(Table())
      ensures r == StatAt(Table()[characterClass][stat], level)
    {
      GenerateSearchTable();
      var statValues := searchTable.value[characterClass][stat];
      if |statValues| < level {
        return 0.0;
      }
      return statValues[level - 1];
    }

    method GetLevels(stat: Stat, characterClass: CharacterClass) returns (n: int)
      requires Valid() && HasEntry(Table(), characterClass, stat)
      modifies this`searchTable
      ensures Valid() && searchTable == Some(Table())
      ensures n == |Table()[characterClass][stat]|
    {
      GenerateSearchTable();
      var levels := searchTable.value[characterClass][stat];
      return |levels|;
    }
  }
}
