/** The effect of Go's `sort.Sort`, `sort.Ints` and `sort.Strings`: a permutation without inversions.
    The library's algorithm is not part of this model; any order it may leave among equal elements
    is covered, because callers rely on the two postconditions only. */
module Sorting {

  /** "Not after" is transitive, as `sort.Sort` demands of `Less`. */
  ghost predicate WeakOrder<T(!new)>(less: (T, T) -> bool) {
    && (forall x, y :: less(x, y) ==> !less(y, x))
    && (forall x, y, z :: !less(y, x) && !less(z, y) ==> !less(z, x))
  }

  ghost predicate Sorted<T>(xs: seq<T>, less: (T, T) -> bool) {
    forall i, j | 0 <= i < j < |xs| :: !less(xs[j], xs[i])
  }

  method Sort<T(==, !new)>(xs: seq<T>, less: (T, T) -> bool) returns (ys: seq<T>)
    requires WeakOrder(less)
    ensures multiset(ys) == multiset(xs) && |ys| == |xs|
    ensures Sorted(ys, less)
  {
    ys := [];
    for i := 0 to |xs|
      invariant |ys| == i && multiset(ys) == multiset(xs[..i])
      invariant Sorted(ys, less)
    {
      assert xs[..i + 1] == xs[..i] + [xs[i]];
      ys := Insert(ys, xs[i], less);
    }
    assert xs[..|xs|] == xs;
  }

  method Insert<T(==, !new)>(ys: seq<T>, x: T, less: (T, T) -> bool) returns (zs: seq<T>)
    requires WeakOrder(less) && Sorted(ys, less)
    ensures multiset(zs) == multiset(ys) + multiset{x} && |zs| == |ys| + 1
    ensures Sorted(zs, less)
  {
    var k := |ys|;
    while k > 0 && less(x, ys[k - 1])
      invariant 0 <= k <= |ys|
      invariant forall j | k <= j < |ys| :: less(x, ys[j])
    {
      k := k - 1;
    }
    zs := ys[..k] + [x] + ys[k..];
    assert ys == ys[..k] + ys[k..];
    InsertedSorted(ys, x, less, k);
  }

  lemma InsertedSorted<T(!new)>(ys: seq<T>, x: T, less: (T, T) -> bool, k: nat)
    requires WeakOrder(less) && Sorted(ys, less) && k <= |ys|
    requires k > 0 ==> !less(x, ys[k - 1])
    requires forall j | k <= j < |ys| :: less(x, ys[j])
    ensures Sorted(ys[..k] + [x] + ys[k..], less)
  {
    var zs := ys[..k] + [x] + ys[k..];
    forall i, j | 0 <= i < j < |zs|
      ensures !less(zs[j], zs[i])
    {
      if i < k && j == k {
        assert i == k - 1 || !less(ys[k - 1], ys[i]);
      }
    }
  }
}
