/** The controller's working table, from group to its shards, and the choice of the fullest and the
    emptiest group (src/shardctrler/state_machine.go, src/shardctrler/common.go). */
module ShardTables {
  import opened FiniteSets
  import opened IntSort

  const NShards: nat := 10

  type Table = map<int, seq<int>>

  /** The group that stands for "no group". */
  const NONE: int := 0

  // ----- what a table means

  /** The shards an assignment gives to a group. */
  ghost function Positions(a: seq<int>, g: int): set<int> {
    set s | 0 <= s < |a| && a[s] == g
  }

  ghost function Load(a: seq<int>, g: int): nat {
    |Positions(a, g)|
  }

  ghost predicate Distinct(xs: seq<int>) {
    forall i, j | 0 <= i < j < |xs| :: xs[i] != xs[j]
  }

  /** `xs` lists the set, each element once. */
  ghost predicate Lists(xs: seq<int>, elements: set<int>) {
    Distinct(xs) && forall x :: x in xs <==> x in elements
  }

  lemma {:induction false} ListsSize(xs: seq<int>, elements: set<int>)
    requires Lists(xs, elements)
    ensures |xs| == |elements|
  {
    if xs == [] {
      if elements != {} {
        var x := Pick(elements);
      }
    } else {
      var last := xs[|xs| - 1];
      assert forall x :: x in xs <==> x in xs[..|xs| - 1] || x == last;
      ListsSize(xs[..|xs| - 1], elements - {last});
    }
  }

  /** The table agrees with an assignment of all shards: each group lists its own, and the shards
      of groups that are not in the table are pending. */
  ghost predicate Consistent(t: Table, a: seq<int>, pending: seq<int>) {
    && |a| == NShards && Distinct(pending)
    && (forall g | g in t :: Lists(t[g], Positions(a, g)))
    && (forall s :: s in pending <==> 0 <= s < NShards && a[s] !in t)
  }

  lemma TableLoad(t: Table, a: seq<int>, pending: seq<int>, g: int)
    requires Consistent(t, a, pending) && g in t
    ensures |t[g]| == Load(a, g) <= NShards
  {
    ListsSize(t[g], Positions(a, g));
    LoadBound(a, g);
  }

  lemma {:induction false} LoadBound(a: seq<int>, g: int)
    ensures Load(a, g) <= |a|
  {
    if a != [] {
      var n := |a| - 1;
      LoadBound(a[..n], g);
      assert Positions(a, g) == Positions(a[..n], g) + if a[n] == g then {n} else {};
    }
  }

  /** Handing a shard over. */
  lemma LoadAfterMove(a: seq<int>, s: nat, to: int, g: int)
    requires s < |a| && a[s] != to
    ensures Positions(a[s := to], g) ==
            if g == to then Positions(a, g) + {s} else if g == a[s] then Positions(a, g) - {s} else Positions(a, g)
    ensures Load(a[s := to], g) == Load(a, g) + (if g == to then 1 else if g == a[s] then -1 else 0)
  {
    var b := a[s := to];
    assert forall x: int :: x in Positions(b, g) <==> 0 <= x < |a| && (if x == s then g == to else a[x] == g);
    if g == a[s] {
      assert s in Positions(a, g);
    }
  }

  /** A table fixes the assignment it came from. */
  lemma OneAssignment(t: Table, a: seq<int>, b: seq<int>)
    requires Consistent(t, a, []) && Consistent(t, b, [])
    ensures a == b
  {
    forall s | 0 <= s < NShards
      ensures a[s] == b[s]
    {
      assert a[s] in t by {
        assert s !in [];
      }
      assert s in Positions(a, a[s]) && s in t[a[s]];
      assert s in Positions(b, a[s]);
    }
  }

  // ----- the fullest and the emptiest group

  /** At least as many shards, the smaller group first. */
  predicate Heavier(t: Table, g: int, h: int)
    requires g in t && h in t
  {
    |t[g]| > |t[h]| || (|t[g]| == |t[h]| && g <= h)
  }

  predicate Lighter(t: Table, g: int, h: int)
    requires g in t && h in t
  {
    |t[g]| < |t[h]| || (|t[g]| == |t[h]| && g <= h)
  }

  ghost predicate IsMax(t: Table, g: int) {
    g in t && forall h | h in t :: Heavier(t, g, h)
  }

  /** The groups the search for the emptiest one considers. */
  ghost function Eligible(t: Table): set<int> {
    set g | g in t && g != NONE && |t[g]| <= NShards
  }

  ghost predicate IsMin(t: Table, g: int) {
    g in Eligible(t) && forall h | h in Eligible(t) :: Lighter(t, g, h)
  }

  lemma {:induction false} HeaviestOf(t: Table, keys: set<int>) returns (g: int)
    requires keys <= t.Keys && keys != {}
    ensures g in keys && forall h | h in keys :: Heavier(t, g, h)
  {
    g := Pick(keys);
    var first, rest := g, keys - {g};
    if rest != {} {
      var other := HeaviestOf(t, rest);
      if !Heavier(t, g, other) {
        g := other;
      }
    }
    assert forall h | h in keys :: h == first || h in rest;
  }

  lemma {:induction false} LightestOf(t: Table, keys: set<int>) returns (g: int)
    requires keys <= t.Keys && keys != {}
    ensures g in keys && forall h | h in keys :: Lighter(t, g, h)
  {
    g := Pick(keys);
    var first, rest := g, keys - {g};
    if rest != {} {
      var other := LightestOf(t, rest);
      if !Lighter(t, g, other) {
        g := other;
      }
    }
    assert forall h | h in keys :: h == first || h in rest;
  }

  lemma MaxExists(t: Table)
    requires t != map[]
    ensures exists g :: IsMax(t, g)
  {
    assert t.Keys != {};
    var g := HeaviestOf(t, t.Keys);
    assert IsMax(t, g);
  }

  lemma MinExists(t: Table)
    requires Eligible(t) != {}
    ensures exists g :: IsMin(t, g)
  {
    var g := LightestOf(t, Eligible(t));
    assert IsMin(t, g);
  }

  /** The smallest group with the most shards; group 0 while it has any. */
  ghost function MaxGid(t: Table): (g: int)
    ensures NONE in t && t[NONE] != [] ==> g == NONE
    ensures !(NONE in t && t[NONE] != []) && t != map[] ==> IsMax(t, g)
  {
    if NONE in t && t[NONE] != [] then NONE
    else if t == map[] then -1
    else MaxExists(t); var g :| IsMax(t, g); g
  }

  /** The smallest group but 0 with the fewest shards. */
  ghost function MinGid(t: Table): (g: int)
    ensures if Eligible(t) == {} then g == -1 else IsMin(t, g)
  {
    if Eligible(t) == {} then -1
    else MinExists(t); var g :| IsMin(t, g); g
  }

  /** The keys of a map, sorted, whatever order they are met in. */
  method SortedKeys(t: Table) returns (gids: array<int>)
    ensures fresh(gids)
    ensures Ascending(gids[..]) && forall g :: g in gids[..] <==> g in t
  {
    var met, rest := [], t.Keys;
    while rest != {}
      invariant rest <= t.Keys && forall g :: g in met <==> g in t && g !in rest
      decreases |rest|
    {
      ghost var some := Pick(rest);
      var g :| g in rest;
      met := met + [g];
      rest := rest - {g};
    }
    gids := new int[|met|](i requires 0 <= i < |met| => met[i]);
    assert gids[..] == met;
    SortInts(gids);
    SortSorts(met);
  }

  /** `gidWithMaxShards`: the same group whatever order the map is ranged over. */
  method GidWithMaxShards(t: Table) returns (maxGid: int)
    ensures maxGid == MaxGid(t)
    ensures if NONE in t && t[NONE] != [] then maxGid == NONE else if t == map[] then maxGid == -1 else
              maxGid in t && forall g | g in t :: |t[g]| < |t[maxGid]| || (|t[g]| == |t[maxGid]| && maxGid <= g)
  {
    if NONE in t && |t[NONE]| > 0 {
      return NONE;
    }
    var gids := SortedKeys(t);
    var maxShards := -1;
    maxGid := -1;
    for i := 0 to gids.Length
      invariant forall j | 0 <= j < i :: gids[j] in t && |t[gids[j]]| <= maxShards
      invariant if maxShards == -1 then i == 0 && maxGid == -1
                else maxGid in gids[..i] && maxGid in t && maxShards == |t[maxGid]|
                     && forall j | 0 <= j < i :: Heavier(t, maxGid, gids[j])
    {
      assert gids[i] in gids[..];
      if |t[gids[i]]| > maxShards {
        maxGid, maxShards := gids[i], |t[gids[i]]|;
      }
      assert gids[..i + 1][i] == gids[i];
    }
    if t != map[] {
      forall h | h in t
        ensures maxGid in t && Heavier(t, maxGid, h)
      {
        assert h in gids[..];
      }
    }
  }

  /** `gidWithMinShards`. */
  method GidWithMinShards(t: Table) returns (minGid: int)
    ensures minGid == MinGid(t)
    ensures if exists g :: g in t && g != NONE && |t[g]| <= NShards
            then minGid in t && minGid != NONE && |t[minGid]| <= NShards
                 && forall g | g in t && g != NONE && |t[g]| <= NShards ::
                      |t[minGid]| < |t[g]| || (|t[minGid]| == |t[g]| && minGid <= g)
            else minGid == -1
  {
    var gids := SortedKeys(t);
    var minShards := NShards + 1;
    minGid := -1;
    for i := 0 to gids.Length
      invariant minShards <= NShards + 1
      invariant forall j | 0 <= j < i && gids[j] != NONE :: gids[j] in t && |t[gids[j]]| >= minShards
      invariant if minShards == NShards + 1 then minGid == -1
                else minGid in gids[..i] && minGid in Eligible(t) && minShards == |t[minGid]|
                     && forall j | 0 <= j < i && gids[j] != NONE :: Lighter(t, minGid, gids[j])
    {
      assert gids[i] in gids[..];
      if gids[i] != NONE && |t[gids[i]]| < minShards {
        minGid, minShards := gids[i], |t[gids[i]]|;
      }
      assert gids[..i + 1][i] == gids[i];
    }
    forall h | h in Eligible(t)
      ensures minGid in Eligible(t) && Lighter(t, minGid, h)
    {
      assert h in gids[..];
    }
  }
}
