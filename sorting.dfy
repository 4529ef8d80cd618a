// std::sort over an array with a caller's comparator, as the attribute
// sorting routines use it: the array ends up a permutation of its old
// contents in which no element sorts before its predecessor.

module Sorting {

  /** The comparator is asymmetric on the elements of `s`. */
  ghost predicate AsymmetricOn<T>(s: seq<T>, less: (T, T) -> bool)
  {
    forall x, y :: x in s && y in s && less(x, y) ==> !less(y, x)
  }

  /** No element sorts before its predecessor. */
  ghost predicate AdjacentSorted<T>(s: seq<T>, less: (T, T) -> bool)
  {
    forall k :: 0 <= k < |s| - 1 ==> !less(s[k + 1], s[k])
  }

  /** No element sorts before any earlier one. */
  ghost predicate Sorted<T>(s: seq<T>, less: (T, T) -> bool)
  {
    forall i, j :: 0 <= i < j < |s| ==> !less(s[j], s[i])
  }

  /** "Does not sort before" is transitive on the elements of `s`, as it is
    * for the strict weak order std::sort asks for. */
  ghost predicate NotLessTransitiveOn<T>(s: seq<T>, less: (T, T) -> bool)
  {
    forall x, y, z :: x in s && y in s && z in s && !less(y, x) && !less(z, y) ==> !less(z, x)
  }

  /** Sort `a` in place: the result is a permutation of the old contents in
    * which no element sorts before its predecessor. */
  method Sort<T>(a: array<T>, less: (T, T) -> bool)
    requires AsymmetricOn(a[..], less)
    modifies a
    ensures multiset(a[..]) == multiset(old(a[..]))
    ensures AdjacentSorted(a[..], less)
  {
    if a.Length == 0 {
      return;
    }
    ghost var orig := multiset(a[..]);
    for i := 1 to a.Length
      invariant multiset(a[..]) == orig
      invariant AsymmetricOn(a[..], less)
      invariant forall k :: 0 <= k < i - 1 ==> !less(a[k + 1], a[k])
    {
      InsertLast(a, i, less);
    }
  }

  /** Swap a[i] down into the adjacent-sorted prefix a[..i]. */
  method InsertLast<T>(a: array<T>, i: nat, less: (T, T) -> bool)
    requires 0 < i < a.Length
    requires AsymmetricOn(a[..], less)
    requires forall k :: 0 <= k < i - 1 ==> !less(a[k + 1], a[k])
    modifies a
    ensures multiset(a[..]) == old(multiset(a[..]))
    ensures AsymmetricOn(a[..], less)
    ensures forall k :: 0 <= k < i ==> !less(a[k + 1], a[k])
    ensures a[i + 1..] == old(a[i + 1..])
  {
    var j := i;
    while j > 0 && less(a[j], a[j - 1])
      invariant 0 <= j <= i
      invariant multiset(a[..]) == old(multiset(a[..]))
      invariant AsymmetricOn(a[..], less)
      invariant forall k :: 0 <= k < j - 1 ==> !less(a[k + 1], a[k])
      invariant forall k :: j <= k < i ==> !less(a[k + 1], a[k])
      invariant 0 < j < i ==> !less(a[j + 1], a[j - 1])
      invariant a[i + 1..] == old(a[i + 1..])
    {
      Swap(a, j - 1, j, less);
      j := j - 1;
    }
  }

  /** Exchange two neighbours. */
  method Swap<T>(a: array<T>, p: nat, q: nat, less: (T, T) -> bool)
    requires p < a.Length && q < a.Length
    requires AsymmetricOn(a[..], less)
    modifies a
    ensures a[..] == old(a[..])[p := old(a[q])][q := old(a[p])]
    ensures multiset(a[..]) == old(multiset(a[..]))
    ensures AsymmetricOn(a[..], less)
  {
    a[p], a[q] := a[q], a[p];
    assert multiset(a[..]) == old(multiset(a[..]));
    forall x | x in a[..] ensures x in old(a[..]) {
      assert x in multiset(a[..]);
    }
  }

  /** Under a transitive "does not sort before", an adjacent-sorted sequence
    * is sorted. */
  lemma {:induction false} SortedFromAdjacent<T>(s: seq<T>, less: (T, T) -> bool)
    requires AdjacentSorted(s, less) && NotLessTransitiveOn(s, less)
    ensures Sorted(s, less)
  {
    forall i, j | 0 <= i < j < |s| ensures !less(s[j], s[i]) {
      NotLessChain(s, less, i, j);
    }
  }

  lemma {:induction false} NotLessChain<T>(s: seq<T>, less: (T, T) -> bool, i: nat, j: nat)
    requires AdjacentSorted(s, less) && NotLessTransitiveOn(s, less)
    requires i < j < |s|
    ensures !less(s[j], s[i])
    decreases j - i
  {
    if i + 1 < j {
      NotLessChain(s, less, i, j - 1);
      assert !less(s[j], s[j - 1]);
      assert s[i] in s && s[j - 1] in s && s[j] in s;
    }
  }
}
