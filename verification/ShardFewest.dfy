/** Join's loop moves as few shards as any balanced assignment could, from every table of live groups,
    even one that Move unbalanced (src/shardctrler/state_machine.go:77-96). */
module ShardFewest {
  import opened FiniteSets
  import opened ShardTables
  import opened ShardBalance

  // ----- how many shards groups hold

  ghost function Moves(a: seq<int>, b: seq<int>): set<int>
    requires |a| == |b|
  {
    set s | 0 <= s < |a| && a[s] != b[s]
  }

  /** The shards of all the groups together. */
  ghost function Held(a: seq<int>, groups: set<int>): set<int> {
    set s | 0 <= s < |a| && a[s] in groups
  }

  ghost function Times(m: nat, x: nat): nat {
    m * x
  }

  lemma OneMore(m: nat, x: nat)
    ensures Times(m + 1, x) == Times(m, x) + x && Times(0, x) == 0 && Times(1, x) == x
  {
  }

  lemma {:induction false} HeldBounds(a: seq<int>, groups: set<int>, lo: nat, hi: nat)
    requires forall g | g in groups :: lo <= Load(a, g) <= hi
    ensures Times(|groups|, lo) <= |Held(a, groups)| <= Times(|groups|, hi)
  {
    hide Times;
    OneMore(0, lo);
    OneMore(0, hi);
    if groups == {} {
      assert Held(a, groups) == {};
    } else {
      var g := Pick(groups);
      var rest := groups - {g};
      HeldBounds(a, rest, lo, hi);
      HeldSplit(a, rest, {g});
      assert rest + {g} == groups && Held(a, {g}) == Positions(a, g);
      assert |groups| == |rest| + 1;
      OneMore(|rest|, lo);
      OneMore(|rest|, hi);
    }
  }

  lemma HeldSplit(a: seq<int>, x: set<int>, y: set<int>)
    requires x * y == {}
    ensures |Held(a, x + y)| == |Held(a, x)| + |Held(a, y)|
  {
    forall s | s in Held(a, x)
      ensures s !in Held(a, y)
    {
      assert a[s] !in x * y;
    }
    assert Held(a, x + y) == Held(a, x) + Held(a, y);
  }

  lemma {:induction false} LeastLoad(a: seq<int>, groups: set<int>) returns (g: int)
    requires groups != {}
    ensures g in groups && forall h | h in groups :: Load(a, g) <= Load(a, h)
  {
    hide Load;
    g := Pick(groups);
    var first, rest := g, groups - {g};
    if rest != {} {
      var other := LeastLoad(a, rest);
      if Load(a, other) < Load(a, g) {
        g := other;
      }
    }
    assert forall h | h in groups :: h == first || h in rest;
  }

  /** The least load of a balanced assignment, which the number of shards and groups decides. */
  lemma LeastIsQuotient(a: seq<int>, groups: set<int>) returns (q: nat)
    requires groups != {} && AllIn(a, groups) && Balanced(a, groups)
    ensures forall g | g in groups :: q <= Load(a, g) <= q + 1
    ensures Times(|groups|, q) <= |a| < Times(|groups|, q + 1)
  {
    hide Load, Times, Held;
    var g := LeastLoad(a, groups);
    q := Load(a, g);
    HeldBounds(a, groups, q, q + 1);
    var rest := groups - {g};
    HeldBounds(a, rest, q, q + 1);
    HeldBounds(a, {g}, q, q);
    HeldSplit(a, rest, {g});
    assert rest + {g} == groups;
    HeldAll(a, groups);
    assert |groups| == |rest| + 1;
    OneMore(|rest|, q + 1);
    OneMore(0, q);
  }

  lemma {:induction false} HeldAll(a: seq<int>, groups: set<int>)
    requires AllIn(a, groups)
    ensures |Held(a, groups)| == |a|
  {
    if a == [] {
      assert Held(a, groups) == {};
    } else {
      var n := |a| - 1;
      HeldAll(a[..n], groups);
      assert Held(a, groups) == Held(a[..n], groups) + {n};
    }
  }

  lemma SameQuotient(n: nat, m: nat, q: nat, r: nat)
    requires Times(m, q) <= n < Times(m, q + 1) && Times(m, r) <= n < Times(m, r + 1)
    ensures q == r
  {
    hide Times;
    if q < r {
      Scaled(m, q + 1, r);
    } else if r < q {
      Scaled(m, r + 1, q);
    }
  }

  lemma Scaled(m: nat, x: nat, y: nat)
    requires x <= y
    ensures Times(m, x) <= Times(m, y)
  {
  }

  /** New groups level and not above the old ones hold as few shards as a balanced assignment can
      give them. */
  lemma FewestHeld(b: seq<int>, c: seq<int>, older: set<int>, newer: set<int>)
    requires |b| == |c| && older + newer != {} && older * newer == {}
    requires AllIn(b, older + newer) && Balanced(b, older + newer) && NoneAbove(b, newer, older)
    requires AllIn(c, older + newer) && Balanced(c, older + newer)
    ensures |Held(b, newer)| <= |Held(c, newer)|
  {
    hide Load, Held, AllIn, Balanced, Times;
    var q := LeastIsQuotient(b, older + newer);
    var r := LeastIsQuotient(c, older + newer);
    SameQuotient(|b|, |older + newer|, q, r);
    if g :| g in newer && Load(b, g) == q + 1 {
      HeldBounds(b, older, q + 1, q + 1);
      HeldBounds(c, older, q, q + 1);
      HeldSplit(b, older, newer);
      HeldSplit(c, older, newer);
      HeldAll(b, older + newer);
      HeldAll(c, older + newer);
    } else {
      HeldBounds(b, newer, q, q);
      HeldBounds(c, newer, q, q + 1);
    }
  }

  // ----- the groups that give and the groups that receive

  /** With `q` the least load in the end: groups that start above `q` only give, down to `q` at the
      lowest; the others only receive, up to `q + 1` at the most.  A receiver reaches `q + 1` only
      when no load is below `q`, a giver `q` only when none is above `q + 1`, and not both. */
  ghost predicate Levelling(t: Table, a: seq<int>, givers: set<int>, receivers: set<int>, q: nat) {
    && Consistent(t, a, []) && t.Keys == givers + receivers && NONE !in t && givers * receivers == {}
    && Times(|t.Keys|, q) <= NShards < Times(|t.Keys|, q + 1)
    && (forall g | g in givers :: Load(a, g) >= q)
    && (forall g | g in receivers :: Load(a, g) <= q + 1)
    && (Full(a, receivers, q) ==> forall g | g in t.Keys :: Load(a, g) >= q)
    && (Drained(a, givers, q) ==> forall g | g in t.Keys :: Load(a, g) <= q + 1)
    && !(Full(a, receivers, q) && Drained(a, givers, q))
  }

  ghost predicate Full(a: seq<int>, receivers: set<int>, q: nat) {
    exists g | g in receivers :: Load(a, g) == q + 1
  }

  ghost predicate Drained(a: seq<int>, givers: set<int>, q: nat) {
    exists g | g in givers :: Load(a, g) == q
  }

  /** The extremes of an unsettled table lie on both sides of the quotient. */
  lemma ExtremesApart(t: Table, a: seq<int>, q: nat)
    requires Consistent(t, a, []) && NONE !in t && !Settled(t)
    requires Times(|t.Keys|, q) <= NShards < Times(|t.Keys|, q + 1)
    ensures MaxGid(t) in t && MinGid(t) in t
    ensures forall g | g in t :: Load(a, MinGid(t)) <= Load(a, g) <= Load(a, MaxGid(t))
    ensures Load(a, MaxGid(t)) >= Load(a, MinGid(t)) + 2
    ensures Load(a, MinGid(t)) <= q < Load(a, MaxGid(t))
  {
    hide Load, Times, Held, AllIn;
    Extremes(t, a);
    var from, to, groups := MaxGid(t), MinGid(t), t.Keys;
    AllListed(t, a);
    HeldAll(a, groups);
    if Load(a, to) > q {
      HeldBounds(a, groups, q + 1, Load(a, from));
    }
    if Load(a, from) <= q {
      var rest := groups - {to};
      HeldBounds(a, rest, 0, q);
      HeldBounds(a, {to}, 0, Load(a, to));
      HeldSplit(a, rest, {to});
      assert rest + {to} == groups && |groups| == |rest| + 1;
      OneMore(|rest|, q);
      OneMore(0, Load(a, to));
    }
  }

  lemma AllListed(t: Table, a: seq<int>)
    requires Consistent(t, a, [])
    ensures AllIn(a, t.Keys) && |a| == NShards
  {
    forall s | 0 <= s < |a|
      ensures a[s] in t
    {
      assert s !in [];
    }
  }

  lemma Extremes(t: Table, a: seq<int>)
    requires Consistent(t, a, []) && NONE !in t && !Settled(t)
    ensures MaxGid(t) in t && MinGid(t) in t
    ensures forall g | g in t :: Load(a, MinGid(t)) <= Load(a, g) <= Load(a, MaxGid(t))
    ensures Load(a, MaxGid(t)) >= Load(a, MinGid(t)) + 2
  {
    hide Load;
    EveryGroupEligible(t, a, []);
    NonEmpty(t, a);
    var from, to := MaxGid(t), MinGid(t);
    assert from in Eligible(t) && to in Eligible(t);
    forall g | g in t
      ensures |t[g]| == Load(a, g)
    {
      TableLoad(t, a, [], g);
    }
    forall g | g in t
      ensures Load(a, to) <= Load(a, g) <= Load(a, from)
    {
      assert Heavier(t, from, g) && Lighter(t, to, g);
    }
  }

  /** So a giver gives and a receiver receives. */
  lemma GiverGives(t: Table, a: seq<int>, givers: set<int>, receivers: set<int>, q: nat)
    requires Levelling(t, a, givers, receivers, q) && !Settled(t)
    ensures MaxGid(t) in givers && MinGid(t) in receivers
  {
    hide Load, Times, Consistent, Settled;
    ExtremesApart(t, a, q);
    var from, to := MaxGid(t), MinGid(t);
    assert from in receivers && Load(a, from) == q + 1 ==> Full(a, receivers, q);
    assert to in givers && Load(a, to) == q ==> Drained(a, givers, q);
  }

  lemma ShiftLevels(t: Table, a: seq<int>, before: seq<int>, givers: set<int>, receivers: set<int>, q: nat)
    requires Levelling(t, a, givers, receivers, q) && OnlyInto(before, a, givers, receivers) && !Settled(t)
    ensures Get(t, MaxGid(t)) != []
    ensures Levelling(Shift(t), Shifted(t, a), givers, receivers, q)
    ensures OnlyInto(before, Shifted(t, a), givers, receivers)
  {
    hide Load, Settled, Consistent, Times;
    ShiftConsistent(t, a);
    FirstShard(t, a);
    GiverGives(t, a, givers, receivers, q);
    ExtremesApart(t, a, q);
    var from, to, a' := MaxGid(t), MinGid(t), Shifted(t, a);
    assert Shift(t).Keys == t.Keys;
    forall g
      ensures Load(a', g) == Load(a, g) + (if g == to then 1 else if g == from then -1 else 0)
    {
      LoadAfterMove(a, t[from][0], to, g);
    }
    assert from !in receivers && to !in givers by {
      assert from !in givers * receivers && to !in givers * receivers;
    }
    if Full(a', receivers, q) {
      assert Full(a, receivers, q) || Load(a, to) == q;
    }
    if Drained(a', givers, q) {
      assert Drained(a, givers, q) || Load(a, from) == q + 1;
    }
  }

  lemma {:induction false} RebalanceLevels(
    t: Table, a: seq<int>, before: seq<int>, givers: set<int>, receivers: set<int>, q: nat)
    requires Levelling(t, a, givers, receivers, q) && OnlyInto(before, a, givers, receivers)
    ensures var r := Rebalance(t, a); Levelling(r.0, r.1, givers, receivers, q) && OnlyInto(before, r.1, givers, receivers)
    decreases Load(a, NONE), Crowding(a, |a|)
  {
    hide Load, Crowding, OnlyInto, Full, Drained, Times;
    if !Settled(t) {
      ShiftDecreases(t, a);
      ShiftLevels(t, a, before, givers, receivers, q);
      RebalanceLevels(Shift(t), Shifted(t, a), before, givers, receivers, q);
    }
  }

  // ----- no balanced assignment moves fewer shards

  /** If shards only went from givers to receivers, and no receiver ended above a giver, nothing else
      balanced moves fewer. */
  lemma FewestMoves(a: seq<int>, b: seq<int>, c: seq<int>, givers: set<int>, receivers: set<int>)
    requires |a| == |b| == |c| && givers + receivers != {} && givers * receivers == {}
    requires OnlyInto(a, b, givers, receivers) && NoneAbove(b, receivers, givers)
    requires AllIn(b, givers + receivers) && Balanced(b, givers + receivers)
    requires AllIn(c, givers + receivers) && Balanced(c, givers + receivers)
    ensures |Moves(a, b)| <= |Moves(a, c)|
  {
    hide Load, Balanced, NoneAbove;
    FewestHeld(b, c, givers, receivers);
    var had, has, other := Held(a, receivers), Held(b, receivers), Held(c, receivers);
    forall s | s in Moves(a, b)
      ensures s in has && s !in had
    {
      assert a[s] !in givers * receivers;
    }
    assert had <= has by {
      forall s | s in had
        ensures s in has
      {
        assert a[s] !in givers * receivers;
      }
    }
    assert Moves(a, b) == has - had;
    assert |has - had| == |has| - |had|;
    assert other - had <= Moves(a, c);
    SubsetSize(other - had, Moves(a, c));
    assert |other - had| == |other| - |other * had|;
    SubsetSize(other * had, had);
  }

  /** From every table of live groups, the loop moves as few shards as any balanced assignment to the
      same groups. */
  lemma RebalanceMovesFewest(t: Table, a: seq<int>, c: seq<int>)
    requires Consistent(t, a, []) && NONE !in t
    requires |c| == NShards && AllIn(c, t.Keys) && Balanced(c, t.Keys)
    ensures var b := Rebalance(t, a).1; |b| == |a| && |Moves(a, b)| <= |Moves(a, c)|
  {
    hide Load, Rebalance, Balanced, Consistent, Times, Levelling, OnlyInto;
    var groups, b := t.Keys, Rebalance(t, a).1;
    SomeGroup(t, a);
    var q := LeastIsQuotient(c, groups);
    var givers := set g | g in groups && Load(a, g) > q;
    var receivers := groups - givers;
    assert givers + receivers == groups && t.Keys - {NONE} == groups;
    StartsLevelling(t, a, givers, receivers, q);
    RebalanceLevels(t, a, a, givers, receivers, q);
    RebalanceIsFair(t, a);
    SettledLevels(t, a, b, givers, receivers, q);
    FewestMoves(a, b, c, givers, receivers);
  }

  lemma SomeGroup(t: Table, a: seq<int>)
    requires Consistent(t, a, []) && NONE !in t
    ensures t.Keys != {} && t.Keys - {NONE} != {} && |a| == NShards && |Rebalance(t, a).1| == NShards
  {
    NonEmpty(t, a);
    assert a[0] in t.Keys - {NONE};
  }

  lemma StartsLevelling(t: Table, a: seq<int>, givers: set<int>, receivers: set<int>, q: nat)
    requires Consistent(t, a, []) && NONE !in t && Times(|t.Keys|, q) <= NShards < Times(|t.Keys|, q + 1)
    requires givers == (set g | g in t.Keys && Load(a, g) > q) && receivers == t.Keys - givers
    ensures Levelling(t, a, givers, receivers, q) && OnlyInto(a, a, givers, receivers)
  {
    hide Load, Times, Consistent;
    assert givers + receivers == t.Keys;
  }

  /** In the end no receiver is above a giver. */
  lemma SettledLevels(t: Table, a: seq<int>, b: seq<int>, givers: set<int>, receivers: set<int>, q: nat)
    requires Consistent(t, a, []) && b == Rebalance(t, a).1
    requires Levelling(Rebalance(t, a).0, b, givers, receivers, q)
    ensures NoneAbove(b, receivers, givers)
  {
    hide Load, Times, Consistent, Rebalance;
    forall g, h | g in receivers && h in givers
      ensures Load(b, g) <= Load(b, h)
    {
      assert Load(b, g) == q + 1 ==> Full(b, receivers, q);
      assert Load(b, h) == q ==> Drained(b, givers, q);
    }
  }
}
