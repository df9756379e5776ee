/** Majorities of `n` peers, and the majority index of a leader's `matchIndex`
    (src/raft/raft_replication.go, `getMajorityIndexLocked`). */
module Quorums {
  import opened FiniteSets
  import opened IntSort

  ghost function Peers(n: nat): (ps: set<int>)
    ensures forall p :: p in ps <==> 0 <= p < n
    ensures |ps| == n
  {
    if n == 0 then {} else Peers(n - 1) + {n - 1}
  }

  /** More than half of the peers. */
  ghost predicate Majority(n: nat, q: set<int>) {
    q <= Peers(n) && 2 * |q| > n
  }

  /** Any two majorities share a peer. */
  lemma MajoritiesMeet(n: nat, a: set<int>, b: set<int>) returns (p: int)
    requires Majority(n, a) && Majority(n, b)
    ensures p in a && p in b && 0 <= p < n
  {
    SubsetSize(a + b, Peers(n));
    assert |a + b| == |a| + |b| - |a * b|;
    p :| p in a * b;
  }

  /** `votes > len(peers)/2` is a majority. */
  lemma MoreThanHalf(n: nat, q: set<int>)
    requires q <= Peers(n)
    ensures |q| > n / 2 <==> Majority(n, q)
  {
  }

  // ----- the majority index

  /** `getMajorityIndexLocked`: position `(n-1)/2` of the sorted copy. */
  function MajorityIndex(xs: seq<int>): (k: int)
    requires xs != []
    ensures k in xs
  {
    SortSorts(xs);
    Sort(xs)[(|xs| - 1) / 2]
  }

  /** The peers whose entry is at least `k`. */
  ghost function Reached(xs: seq<int>, k: int): set<int> {
    set p | 0 <= p < |xs| && xs[p] >= k
  }

  lemma {:induction false} ReachedSize(xs: seq<int>, k: int)
    ensures |Reached(xs, k)| == Count(xs, k)
  {
    if xs == [] {
      assert Reached(xs, k) == {};
    } else {
      var front := xs[..|xs| - 1];
      ReachedSize(front, k);
      assert Reached(xs, k) == Reached(front, k) + if xs[|xs| - 1] >= k then {|xs| - 1} else {};
    }
  }

  /** For odd and even `n`: the majority index is the greatest index that a majority has reached,
      and a majority here is the same as in an election. */
  lemma MajorityIndexMeaning(xs: seq<int>, k: int)
    requires xs != []
    ensures k <= MajorityIndex(xs) <==> Majority(|xs|, Reached(xs, k))
    ensures k <= MajorityIndex(xs) <==> |Reached(xs, k)| >= |xs| / 2 + 1
  {
    hide Sort, Insert, Count, Ascending;
    SortSorts(xs);
    AscendingCount(Sort(xs), (|xs| - 1) / 2, k);
    ReachedSize(xs, k);
  }
}
