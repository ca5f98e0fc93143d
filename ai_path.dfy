/**
 * A patrol path: an ordered, closed loop of waypoints (the children of the
 * path object). Only the index arithmetic is modelled; the waypoint
 * positions themselves live with the AI controller that walks the path.
 */
module AIPath {

  /**
   * `GetNextIndex(i)` with the path's child count as a parameter: the index
   * after the last child is 0, every other index is followed by the next one.
   */
  function GetNextIndex(i: int, childCount: int): (j: int)
    ensures i + 1 == childCount ==> j == 0
    ensures i + 1 != childCount ==> j == i + 1
  {
    if i + 1 == childCount then 0 else i + 1
  }

  /** A valid index of a non-empty path is mapped to a valid index. */
  lemma NextIndexInRange(i: int, childCount: int)
    requires 0 <= i < childCount
    ensures 0 <= GetNextIndex(i, childCount) < childCount
  {
  }

  /** Following the path `k` times from index `i`. */
  function Advance(i: int, childCount: int, k: nat): (j: int)
  {
    if k == 0 then i else GetNextIndex(Advance(i, childCount, k - 1), childCount)
  }

  /** Walking `a + b` steps is walking `a` steps, then `b` more. */
  lemma {:induction false} AdvanceAdd(i: int, childCount: int, a: nat, b: nat)
    ensures Advance(i, childCount, a + b) == Advance(Advance(i, childCount, a), childCount, b)
  {
    if b > 0 {
      AdvanceAdd(i, childCount, a, b - 1);
    }
  }

  /** Before the end of the path is reached, each step moves one index on. */
  lemma {:induction false} AdvanceBeforeEnd(i: int, childCount: int, k: nat)
    requires 0 <= i && i + k < childCount
    ensures Advance(i, childCount, k) == i + k
  {
    if k > 0 {
      AdvanceBeforeEnd(i, childCount, k - 1);
    }
  }

  /** From index `i`, the walk reaches index 0 after exactly `childCount - i` steps. */
  lemma AdvanceWrapsToStart(i: int, childCount: int)
    requires 0 <= i < childCount
    ensures Advance(i, childCount, childCount - i) == 0
  {
    AdvanceBeforeEnd(i, childCount, childCount - i - 1);
  }

  /** The path is a closed loop: `childCount` steps from any valid index return to it. */
  lemma PathIsClosedLoop(i: int, childCount: int)
    requires 0 <= i < childCount
    ensures Advance(i, childCount, childCount) == i
  {
    AdvanceAdd(i, childCount, childCount - i, i);
    AdvanceWrapsToStart(i, childCount);
    AdvanceBeforeEnd(0, childCount, i);
  }

  /** No index is revisited before the loop completes, so one lap visits every waypoint once. */
  lemma NoEarlyReturn(i: int, childCount: int, k: nat)
    requires 0 <= i < childCount && 0 < k < childCount
    ensures Advance(i, childCount, k) != i
  {
    if i + k < childCount {
      AdvanceBeforeEnd(i, childCount, k);
    } else {
      AdvanceAdd(i, childCount, childCount - i, k - (childCount - i));
      AdvanceWrapsToStart(i, childCount);
      AdvanceBeforeEnd(0, childCount, k - (childCount - i));
    }
  }

  /** On a single-waypoint path the patrol stays at index 0. */
  lemma SingleWaypointStays()
    ensures GetNextIndex(0, 1) == 0
  {
  }
}
