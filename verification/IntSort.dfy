/** `sort.Ints`: the sorted copy of a sequence, and sorting an array in place. */
module IntSort {

  /** Into its place, from the end. */
  function Insert(xs: seq<int>, x: int): seq<int> {
    if xs == [] || xs[|xs| - 1] <= x then xs + [x]
    else Insert(xs[..|xs| - 1], x) + [xs[|xs| - 1]]
  }

  /** The sorted copy. */
  function Sort(xs: seq<int>): seq<int> {
    if xs == [] then [] else Insert(Sort(xs[..|xs| - 1]), xs[|xs| - 1])
  }

  ghost predicate Ascending(xs: seq<int>) {
    forall i, j | 0 <= i < j < |xs| :: xs[i] <= xs[j]
  }

  /** How many elements are at least `k`. */
  ghost function Count(xs: seq<int>, k: int): nat {
    if xs == [] then 0 else Count(xs[..|xs| - 1], k) + if xs[|xs| - 1] >= k then 1 else 0
  }

  lemma {:induction false} InsertSorts(xs: seq<int>, x: int)
    requires Ascending(xs)
    ensures |Insert(xs, x)| == |xs| + 1 && Ascending(Insert(xs, x))
    ensures forall y :: y in Insert(xs, x) <==> y in xs || y == x
    ensures forall k :: Count(Insert(xs, x), k) == Count(xs, k) + if x >= k then 1 else 0
  {
    if xs == [] || xs[|xs| - 1] <= x {
      assert (xs + [x])[..|xs|] == xs;
    } else {
      var front, last := xs[..|xs| - 1], xs[|xs| - 1];
      InsertSorts(front, x);
      assert xs == front + [last];
      var r := Insert(front, x);
      assert (r + [last])[..|r|] == r;
      forall i | 0 <= i < |r|
        ensures r[i] <= last
      {
        assert r[i] in r;
      }
    }
  }

  lemma {:induction false} SortSorts(xs: seq<int>)
    ensures |Sort(xs)| == |xs| && Ascending(Sort(xs))
    ensures forall y :: y in Sort(xs) <==> y in xs
    ensures forall k :: Count(Sort(xs), k) == Count(xs, k)
  {
    if xs != [] {
      SortSorts(xs[..|xs| - 1]);
      InsertSorts(Sort(xs[..|xs| - 1]), xs[|xs| - 1]);
      assert xs == xs[..|xs| - 1] + [xs[|xs| - 1]];
    }
  }

  lemma {:induction false} AscendingCount(ys: seq<int>, m: nat, k: int)
    requires Ascending(ys) && m < |ys|
    ensures ys[m] >= k ==> Count(ys, k) >= |ys| - m
    ensures ys[m] < k ==> Count(ys, k) <= |ys| - m - 1
  {
    var front := ys[..|ys| - 1];
    if m < |front| {
      AscendingCount(front, m, k);
    } else if ys[m] < k && front != [] {
      AscendingCount(front, m - 1, k);
    }
  }

  lemma {:induction false} InsertPlace(xs: seq<int>, x: int, j: nat)
    requires j <= |xs| && (j == 0 || xs[j - 1] <= x) && forall k | j <= k < |xs| :: xs[k] > x
    ensures Insert(xs, x) == xs[..j] + [x] + xs[j..]
  {
    if j < |xs| {
      InsertPlace(xs[..|xs| - 1], x, j);
      assert xs[j..] == xs[..|xs| - 1][j..] + [xs[|xs| - 1]];
    } else {
      assert xs[..j] == xs;
    }
  }

  /** Moves `a[i]` down into its place among the sorted elements before it. */
  method InsertAt(a: array<int>, i: nat)
    requires i < a.Length
    modifies a
    ensures a[..i + 1] == Insert(old(a[..i]), old(a[i])) && a[i + 1..] == old(a[i + 1..])
  {
    var x, j := a[i], i;
    ghost var front := a[..i];
    while j > 0 && a[j - 1] > x
      invariant 0 <= j <= i
      invariant forall k | 0 <= k < j :: a[k] == front[k]
      invariant forall k | j <= k < i :: a[k + 1] == front[k] && front[k] > x
      invariant forall k | i < k < a.Length :: a[k] == old(a[k])
    {
      a[j] := a[j - 1];
      j := j - 1;
    }
    a[j] := x;
    assert a[..i + 1] == front[..j] + [x] + front[j..] by {
      forall k | 0 <= k <= i
        ensures a[k] == (front[..j] + [x] + front[j..])[k]
      {
        assert k > j ==> a[(k - 1) + 1] == front[k - 1];
      }
    }
    InsertPlace(front, x, j);
  }

  /** `sort.Ints`, in place. */
  method SortInts(a: array<int>)
    modifies a
    ensures a[..] == Sort(old(a[..]))
  {
    ghost var was := a[..];
    for i := 0 to a.Length
      invariant a[..i] == Sort(was[..i]) && a[i..] == was[i..]
    {
      assert a[i] == a[i..][0] && a[i + 1..] == a[i..][1..];
      assert was[..i + 1][..i] == was[..i];
      InsertAt(a, i);
    }
    assert a[..] == a[..a.Length] && was[..a.Length] == was;
  }
}
