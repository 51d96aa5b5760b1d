/** Small shared vocabulary: an optional value and duplicate-freedom of a sequence. */
module Basics {

  /** Python's `None`-or-value, as returned by the lookups of the loop. */
  datatype Option<+T> = None | Some(value: T) {

    predicate IsFailure() {
      None?
    }

    function PropagateFailure<U>(): Option<U>
      requires None?
    {
      None
    }

    function Extract(): T
      requires Some?
    {
      value
    }

    /** `dict.get(key, default)` once the lookup has been made. */
    function GetOr(default: T): T {
      match this
      case Some(v) => v
      case None => default
    }
  }

  /** No element occurs twice. */
  predicate NoDup<T(==)>(xs: seq<T>) {
    forall i, j :: 0 <= i < j < |xs| ==> xs[i] != xs[j]
  }

  /** The tail of a list without repeats has none. */
  lemma NoDupTail<T>(xs: seq<T>)
    requires xs != [] && NoDup(xs)
    ensures NoDup(xs[1..])
  {
    var tail := xs[1..];
    forall i, j | 0 <= i < j < |tail| ensures tail[i] != tail[j] {
      assert tail[i] == xs[i + 1] && tail[j] == xs[j + 1];
    }
  }

  /** The head of a list without repeats is not in its tail. */
  lemma HeadNotInTail<T>(xs: seq<T>, x: T)
    requires xs != [] && NoDup(xs) && x in xs[1..]
    ensures x != xs[0]
  {
    var j :| 0 <= j < |xs| - 1 && xs[1..][j] == x;
    assert xs[j + 1] == x;
  }

  /** The position of an element in a list that holds it. */
  function IndexOf<T(==)>(xs: seq<T>, x: T): (i: nat)
    requires x in xs
    ensures i < |xs| && xs[i] == x
  {
    if xs[0] == x then 0 else 1 + IndexOf(xs[1..], x)
  }

  /** In a list without repeats, the element at `i` is found at `i`. */
  lemma IndexOfAt<T>(xs: seq<T>, i: nat)
    requires NoDup(xs) && i < |xs|
    ensures IndexOf(xs, xs[i]) == i
  {
    var j := IndexOf(xs, xs[i]);
    assert xs[j] == xs[i];
  }

  /** An element other than the head is found one further on than in the tail. */
  lemma IndexOfTail<T>(xs: seq<T>, x: T)
    requires x in xs && x != xs[0]
    ensures x in xs[1..] && IndexOf(xs, x) == 1 + IndexOf(xs[1..], x)
  {
  }

  /** A prefix of a list without repeats has none. */
  lemma NoDupTake<T>(xs: seq<T>, n: nat)
    requires NoDup(xs)
    ensures NoDup(Take(xs, n))
  {
    var p := Take(xs, n);
    forall i, j | 0 <= i < j < |p| ensures p[i] != p[j] {
      assert p[i] == xs[i] && p[j] == xs[j];
    }
  }

  /** An element of a prefix of a list without repeats sits where it sits in the whole list. */
  lemma IndexOfTake<T>(xs: seq<T>, n: nat, x: T)
    requires NoDup(xs) && x in Take(xs, n)
    ensures x in xs && IndexOf(Take(xs, n), x) == IndexOf(xs, x)
  {
    var i := IndexOf(Take(xs, n), x);
    assert xs[i] == x;
    IndexOfAt(xs, i);
  }

  function Min(a: int, b: int): int {
    if a <= b then a else b
  }

  /** Python slicing `xs[:n]` for a non-negative `n`: clamps at the length. */
  function Take<T>(xs: seq<T>, n: nat): (r: seq<T>)
    ensures |r| == Min(n, |xs|)
    ensures r == xs[..|r|]
  {
    if n <= |xs| then xs[..n] else xs
  }
}
