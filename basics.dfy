/**
 * Small shared vocabulary: an Option for the C# null reference, the
 * engine's timers that start at Mathf.Infinity, 3-vectors for positions,
 * and the Unity integer random-range contract used by every draw that the
 * model turns into a parameter.
 */
module Basics {

  /** A value that the source represents as a possibly-null reference. */
  datatype Option<T> = None | Some(value: T)

  /**
   * A float timer that may hold Mathf.Infinity. Infinity plus any finite
   * frame time stays Infinity; Infinity is greater than every finite
   * threshold and less than none.
   */
  datatype Timer = Infinite | Elapsed(t: real)
  {
    /** The timer after `dt` more seconds (`timer += Time.deltaTime`). */
    function Advance(dt: real): (r: Timer)
      ensures Infinite? <==> r.Infinite?
      ensures Elapsed? ==> r.t == t + dt
    {
      match this
      case Infinite => Infinite
      case Elapsed(x) => Elapsed(x + dt)
    }

    /** `timer < limit` for a finite limit. */
    predicate Below(limit: real) {
      Elapsed? && t < limit
    }

    /** `timer > limit` for a finite limit. */
    predicate Exceeds(limit: real) {
      Infinite? || t > limit
    }
  }

  /** A zero timer, as after `timer = 0`. */
  const Reset: Timer := Elapsed(0.0)

  datatype Vec3 = Vec3(x: real, y: real, z: real)

  function MaxReal(a: real, b: real): (r: real)
    ensures r >= a && r >= b && (r == a || r == b)
  {
    if a >= b then a else b
  }

  function MinReal(a: real, b: real): (r: real)
    ensures r <= a && r <= b && (r == a || r == b)
  {
    if a <= b then a else b
  }

  /**
   * What `UnityEngine.Random.Range(lo, hi)` on integers may return: a value
   * in [lo, hi) when lo < hi (the upper bound is exclusive) and lo itself
   * when the bounds are equal. For reversed bounds the model admits any value
   * between them.
   */
  predicate IntRangeDraw(lo: int, hi: int, n: int) {
    if lo < hi then lo <= n < hi
    else if lo == hi then n == lo
    else hi <= n <= lo
  }

  /** What `UnityEngine.Random.Range(lo, hi)` on floats may return: both ends inclusive. */
  predicate FloatRangeDraw(lo: real, hi: real, x: real) {
    if lo <= hi then lo <= x <= hi else hi <= x <= lo
  }

  /** No element occurs twice. */
  predicate NoDuplicates<T(==)>(s: seq<T>) {
    forall i, j :: 0 <= i < j < |s| ==> s[i] != s[j]
  }

  /** `List.Remove(x)`: the first occurrence of `x` is removed, if there is one. */
  function RemoveFirst<T(==)>(s: seq<T>, x: T): (r: seq<T>)
    ensures x !in s ==> r == s
  {
    if s == [] then []
    else
      assert s == [s[0]] + s[1..];
      if s[0] == x then s[1..] else [s[0]] + RemoveFirst(s[1..], x)
  }

  /** `List.Remove(x)` takes away one occurrence of `x` when there is one, and nothing else. */
  lemma {:induction false} RemoveFirstMultiset<T>(s: seq<T>, x: T)
    ensures multiset(RemoveFirst(s, x)) == multiset(s) - multiset{x}
  {
    if s != [] {
      assert s == [s[0]] + s[1..];
      RemoveFirstMultiset(s[1..], x);
    }
  }

  /** `List.Remove` keeps only elements that were already there. */
  lemma RemoveFirstSubset<T>(s: seq<T>, x: T)
    ensures forall y :: y in RemoveFirst(s, x) ==> y in s
  {
    RemoveFirstMultiset(s, x);
    forall y | y in RemoveFirst(s, x)
      ensures y in s
    {
      assert y in multiset(RemoveFirst(s, x));
    }
  }

  /** After `List.Remove(x)` on a list that held `x` at most once, `x` is gone. */
  lemma RemoveFirstClears<T>(s: seq<T>, x: T)
    requires multiset(s)[x] <= 1
    ensures x !in RemoveFirst(s, x)
  {
    RemoveFirstMultiset(s, x);
    assert multiset(RemoveFirst(s, x))[x] == 0;
  }
}
