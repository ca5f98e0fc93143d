/**
 * A drop table: per level, the chance that anything drops, how many drops
 * there are and, per item, a relative weight and a quantity range. Every
 * per-level setting is an array read through `GetByLevel`, which clamps the
 * level to the array. Every random draw is a parameter, constrained to what
 * `UnityEngine.Random.Range` may return.
 */
module Drops {
  import opened Basics
  import opened Inventories

  /**
   * `GetByLevel`: the default for an empty array or a level below 1, the
   * last entry for a level past the end, and otherwise the entry for the level.
   */
  function GetByLevel<T>(values: seq<T>, level: int, default: T): T
  {
    if |values| == 0 || level <= 0 then default
    else if level > |values| then values[|values| - 1]
    else values[level - 1]
  }

  /**
   * The level is clamped to the array: a level below 1 or an empty array
   * gives the default, any other level the entry at min(level, length), which
   * is one of the array's entries; raising the level past the end changes
   * nothing.
   */
  lemma GetByLevelClamps<T>(values: seq<T>, level: int, default: T)
    ensures |values| == 0 || level <= 0 ==> GetByLevel(values, level, default) == default
    ensures |values| > 0 && level >= 1 ==>
      GetByLevel(values, level, default) == values[MinInt(level, |values|) - 1] &&
      GetByLevel(values, level, default) in values
    ensures level >= |values| ==> GetByLevel(values, level, default) == GetByLevel(values, |values|, default)
  {
  }

  function MinInt(a: int, b: int): int
  {
    if a <= b then a else b
  }

  datatype DropConfig = DropConfig(
    item: InventoryItem,
    relativeChance: seq<real>,
    minNumber: seq<int>,
    maxNumber: seq<int>)

  datatype Drop = Drop(item: InventoryItem, quantity: int)

  datatype DropLibrary = DropLibrary(
    potentialDrops: seq<DropConfig>,
    dropChancePercentage: seq<real>,
    minDrops: seq<int>,
    maxDrops: seq<int>)

  function Chance(drop: DropConfig, level: int): real
  {
    GetByLevel(drop.relativeChance, level, 0.0)
  }

  /** The sum of the first drops' chances at the level: the running total of the selection loop. */
  function ChanceTotal(drops: seq<DropConfig>, level: int): real
    decreases |drops|
  {
    if drops == [] then 0.0 else ChanceTotal(drops[..|drops| - 1], level) + Chance(drops[|drops| - 1], level)
  }

  /** `GetMaxChance`: the total of every drop's chance at the level. */
  method GetMaxChance(library: DropLibrary, level: int) returns (total: real)
    ensures total == ChanceTotal(library.potentialDrops, level)
  {
    var drops := library.potentialDrops;
    total := 0.0;
    var i := 0;
    while i < |drops|
      invariant 0 <= i <= |drops|
      invariant total == ChanceTotal(drops[..i], level)
    {
      assert drops[..i + 1][..i] == drops[..i];
      total := total + Chance(drops[i], level);
      i := i + 1;
    }
    assert drops[..i] == drops;
  }

  /** With no negative weights the running total only grows. */
  lemma {:induction false} ChanceTotalGrows(drops: seq<DropConfig>, level: int, n: nat, m: nat)
    requires n <= m <= |drops|
    requires forall k :: 0 <= k < |drops| ==> Chance(drops[k], level) >= 0.0
    ensures ChanceTotal(drops[..n], level) <= ChanceTotal(drops[..m], level)
    decreases m - n
  {
    if n < m {
      ChanceTotalGrows(drops, level, n, m - 1);
      assert drops[..m][..m - 1] == drops[..m - 1];
    }
  }

  /** The running total of the selection loop once it has added drop `j`. */
  function RunningTotal(drops: seq<DropConfig>, level: int, j: nat): real
    requires j < |drops|
  {
    ChanceTotal(drops[..j + 1], level)
  }

  /**
   * The position `SelectRandomItem` stops at: the first drop whose running
   * total exceeds the random number, or the number of drops when none does.
   */
  function SelectionIndex(drops: seq<DropConfig>, level: int, randomNumber: real, from: nat): (k: nat)
    requires from <= |drops|
    ensures from <= k <= |drops|
    decreases |drops| - from
  {
    if from == |drops| then |drops|
    else if RunningTotal(drops, level, from) > randomNumber then from
    else SelectionIndex(drops, level, randomNumber, from + 1)
  }

  /**
   * The selection is the first drop whose running total exceeds the random
   * number: every drop before it falls short, and it does not; no drop is
   * selected exactly when every running total falls short.
   */
  lemma {:induction false} SelectionIsFirstAbove(drops: seq<DropConfig>, level: int, randomNumber: real, from: nat)
    requires from <= |drops|
    ensures var k := SelectionIndex(drops, level, randomNumber, from);
      && (forall j :: from <= j < k ==> RunningTotal(drops, level, j) <= randomNumber)
      && (k < |drops| ==> RunningTotal(drops, level, k) > randomNumber)
    decreases |drops| - from
  {
    if from < |drops| && RunningTotal(drops, level, from) <= randomNumber {
      SelectionIsFirstAbove(drops, level, randomNumber, from + 1);
    }
  }

  /**
   * With no negative weights and a random number below the total weight, an
   * item is always selected. (The float draw may also return the total
   * itself; then nothing is.)
   */
  lemma SelectionSucceedsBelowTotal(drops: seq<DropConfig>, level: int, randomNumber: real)
    requires forall k :: 0 <= k < |drops| ==> Chance(drops[k], level) >= 0.0
    requires 0.0 <= randomNumber < ChanceTotal(drops, level)
    ensures SelectionIndex(drops, level, randomNumber, 0) < |drops|
  {
    SelectionIsFirstAbove(drops, level, randomNumber, 0);
    assert drops != [];
    assert RunningTotal(drops, level, |drops| - 1) == ChanceTotal(drops, level) by {
      assert drops[..|drops|] == drops;
    }
  }

  /** `SelectRandomItem` with the draw from [0, maxChance] given: the selected drop, or none. */
  method SelectRandomItem(library: DropLibrary, level: int, randomNumber: real) returns (selected: Option<DropConfig>)
    requires FloatRangeDraw(0.0, ChanceTotal(library.potentialDrops, level), randomNumber)
    ensures var k := SelectionIndex(library.potentialDrops, level, randomNumber, 0);
      selected == if k < |library.potentialDrops| then Some(library.potentialDrops[k]) else None
  {
    var maxChance := GetMaxChance(library, level);
    var drops := library.potentialDrops;
    var chanceTotal := 0.0;
    var i := 0;
    while i < |drops|
      invariant 0 <= i <= |drops|
      invariant chanceTotal == ChanceTotal(drops[..i], level)
      invariant SelectionIndex(drops, level, randomNumber, 0) == SelectionIndex(drops, level, randomNumber, i)
    {
      assert drops[..i + 1][..i] == drops[..i];
      chanceTotal := chanceTotal + Chance(drops[i], level);
      if chanceTotal > randomNumber {
        return Some(drops[i]);
      }
      i := i + 1;
    }
    return None;
  }

  /** `ShouldGetRandomDrop`: the integer roll in [0, 100) is below the level's drop chance. */
  predicate ShouldGetRandomDrop(library: DropLibrary, level: int, roll: int)
  {
    (roll as real) < GetByLevel(library.dropChancePercentage, level, 0.0)
  }

  /** The range `GetRandomNumberOfDrops` draws from: min and max-1, the second exclusive. */
  predicate NumberOfDropsDraw(library: DropLibrary, level: int, draw: int)
  {
    IntRangeDraw(GetByLevel(library.minDrops, level, 0), GetByLevel(library.maxDrops, level, 0) - 1, draw)
  }

  /** `DropConfig.GetRandomNumber`: 1 for an item that does not stack, else the draw from [min, max-1). */
  predicate QuantityDraw(drop: DropConfig, level: int, draw: int)
  {
    !drop.item.stackable || IntRangeDraw(GetByLevel(drop.minNumber, level, 0), GetByLevel(drop.maxNumber, level, 0) - 1, draw)
  }

  function Quantity(drop: DropConfig, draw: int): int
  {
    if !drop.item.stackable then 1 else draw
  }

  /**
   * Because the upper bound passed to the draw is already exclusive and the
   * code subtracts 1 again, the configured maximum is never dropped when the
   * range is not empty, and neither is the maximum minus 1 when the range
   * holds more than one value. The same holds for the number of drops.
   */
  lemma ConfiguredMaximumNeverDrawn(lo: int, hi: int, draw: int)
    requires IntRangeDraw(lo, hi - 1, draw)
    ensures lo < hi ==> draw < hi
    ensures lo < hi - 1 ==> draw < hi - 1
    ensures lo <= draw || hi - 1 <= draw
  {
  }

  /**
   * The random picks of one drop each: which entry the weighted draw stops
   * at and how many of the item. Every pick must select an item: the source
   * reads the item of the selection without a null check.
   */
  predicate PicksValid(library: DropLibrary, level: int, count: int, picks: seq<real>, quantityDraws: seq<int>)
  {
    && |picks| >= count && |quantityDraws| >= count
    && forall i :: 0 <= i < count ==>
         && FloatRangeDraw(0.0, ChanceTotal(library.potentialDrops, level), picks[i])
         && SelectionIndex(library.potentialDrops, level, picks[i], 0) < |library.potentialDrops|
         && QuantityDraw(library.potentialDrops[SelectionIndex(library.potentialDrops, level, picks[i], 0)], level, quantityDraws[i])
  }

  /** The drop made with the `i`-th pick. */
  function DropFor(library: DropLibrary, level: int, pick: real, quantityDraw: int): Drop
    requires SelectionIndex(library.potentialDrops, level, pick, 0) < |library.potentialDrops|
  {
    var config := library.potentialDrops[SelectionIndex(library.potentialDrops, level, pick, 0)];
    Drop(config.item, Quantity(config, quantityDraw))
  }

  /** `GetRandomDrop`: the selected item and its quantity. */
  method GetRandomDrop(library: DropLibrary, level: int, pick: real, quantityDraw: int) returns (result: Drop)
    requires FloatRangeDraw(0.0, ChanceTotal(library.potentialDrops, level), pick)
    requires SelectionIndex(library.potentialDrops, level, pick, 0) < |library.potentialDrops|
    ensures result == DropFor(library, level, pick, quantityDraw)
  {
    var drop := SelectRandomItem(library, level, pick);
    result := Drop(drop.value.item, Quantity(drop.value, quantityDraw));
  }

  /**
   * `GetRandomDrops`: nothing unless the roll passes; otherwise exactly the
   * drawn number of drops (none for a number below 1), one per pick.
   */
  method GetRandomDrops(library: DropLibrary, level: int, roll: int, numberOfDrops: int,
                        picks: seq<real>, quantityDraws: seq<int>) returns (drops: seq<Drop>)
    requires IntRangeDraw(0, 100, roll)
    requires ShouldGetRandomDrop(library, level, roll) ==>
      NumberOfDropsDraw(library, level, numberOfDrops) && PicksValid(library, level, numberOfDrops, picks, quantityDraws)
    ensures !ShouldGetRandomDrop(library, level, roll) ==> drops == []
    ensures ShouldGetRandomDrop(library, level, roll) ==>
      |drops| == (if numberOfDrops > 0 then numberOfDrops else 0) &&
      forall i :: 0 <= i < |drops| ==> drops[i] == DropFor(library, level, picks[i], quantityDraws[i])
  {
    drops := [];
    if !ShouldGetRandomDrop(library, level, roll) {
      return;
    }
    var i := 0;
    while i < numberOfDrops
      invariant 0 <= i <= (if numberOfDrops > 0 then numberOfDrops else 0) && |drops| == i
      invariant forall j :: 0 <= j < i ==> drops[j] == DropFor(library, level, picks[j], quantityDraws[j])
    {
      var drop := GetRandomDrop(library, level, picks[i], quantityDraws[i]);
      drops := drops + [drop];
      i := i + 1;
    }
  }

  /** A drop of an item that does not stack is always of one copy. */
  lemma NonStackableDropsSingly(library: DropLibrary, level: int, pick: real, quantityDraw: int)
    requires SelectionIndex(library.potentialDrops, level, pick, 0) < |library.potentialDrops|
    ensures !DropFor(library, level, pick, quantityDraw).item.stackable ==> DropFor(library, level, pick, quantityDraw).quantity == 1
  {
  }
}
