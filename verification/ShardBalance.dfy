/** Moving shards between groups: the loop of Join, which evens out the loads, and the loop of
    Leave, which hands out the shards of the departing groups
    (src/shardctrler/state_machine.go:61-96, 121-149). */
module ShardBalance {
  import opened FiniteSets
  import opened ShardTables

  ghost function Get(t: Table, g: int): seq<int> {
    if g in t then t[g] else []
  }

  lemma ListsAppend(xs: seq<int>, elements: set<int>, s: int)
    requires Lists(xs, elements) && s !in elements
    ensures Lists(xs + [s], elements + {s})
  {
  }

  lemma ListsTail(xs: seq<int>, elements: set<int>)
    requires Lists(xs, elements) && xs != []
    ensures Lists(xs[1..], elements - {xs[0]})
  {
    assert forall x :: x in xs <==> x == xs[0] || x in xs[1..];
  }

  // ----- Join's loop

  /** When the loop stops: nothing is left on group 0 and the extremes differ by at most one. */
  ghost predicate Settled(t: Table) {
    MaxGid(t) != NONE && |Get(t, MaxGid(t))| - |Get(t, MinGid(t))| <= 1
  }

  /** One round: the first shard of the fullest group goes to the end of the emptiest. */
  ghost function Shift(t: Table): Table
    requires Get(t, MaxGid(t)) != []
  {
    var from, to := MaxGid(t), MinGid(t);
    t[to := Get(t, to) + [t[from][0]]][from := t[from][1..]]
  }

  /** The same round on the assignment. */
  ghost function Shifted(t: Table, a: seq<int>): seq<int>
    requires Consistent(t, a, []) && Get(t, MaxGid(t)) != []
  {
    FirstShard(t, a);
    a[t[MaxGid(t)][0] := MinGid(t)]
  }

  lemma FirstShard(t: Table, a: seq<int>)
    requires Consistent(t, a, []) && Get(t, MaxGid(t)) != []
    ensures 0 <= t[MaxGid(t)][0] < |a| && a[t[MaxGid(t)][0]] == MaxGid(t)
  {
    var g := MaxGid(t);
    assert t[g][0] in t[g] && t[g][0] in Positions(a, g);
  }

  lemma NonEmpty(t: Table, a: seq<int>)
    requires Consistent(t, a, [])
    ensures a[0] in t && t != map[]
  {
    assert 0 !in [];
  }

  /** The target is another group than the source, and never group 0. */
  lemma SourceAndTarget(t: Table, a: seq<int>)
    requires Consistent(t, a, []) && !Settled(t)
    ensures Get(t, MaxGid(t)) != [] && MinGid(t) != MaxGid(t) && MinGid(t) != NONE
    ensures MinGid(t) !in t ==> Eligible(t) == {}
  {
    NonEmpty(t, a);
  }

  /** Conservation: whatever group but 0 there is, the search for the emptiest one finds it. */
  lemma EveryGroupEligible(t: Table, a: seq<int>, pending: seq<int>)
    requires Consistent(t, a, pending)
    ensures Eligible(t) == t.Keys - {NONE}
  {
    forall g | g in t
      ensures |t[g]| <= NShards
    {
      TableLoad(t, a, pending, g);
    }
  }

  lemma ShiftConsistent(t: Table, a: seq<int>)
    requires Consistent(t, a, []) && !Settled(t)
    ensures Get(t, MaxGid(t)) != [] && Consistent(Shift(t), Shifted(t, a), [])
  {
    hide Load, Settled, Lists, Positions, IsMax, IsMin, Distinct;
    SourceAndTarget(t, a);
    FirstShard(t, a);
    var from, to, t', a' := MaxGid(t), MinGid(t), Shift(t), Shifted(t, a);
    var s := t[from][0];
    forall g | g in t'
      ensures Lists(t'[g], Positions(a', g))
    {
      LoadAfterMove(a, s, to, g);
      if g == to {
        TargetList(t, a);
        ListsAppend(Get(t, to), Positions(a, to), s);
      } else if g == from {
        ListsTail(t[from], Positions(a, from));
      }
    }
    NothingPending(t', a');
  }

  lemma NothingPending(t: Table, a: seq<int>)
    requires |a| == NShards && forall s | 0 <= s < |a| :: a[s] in t
    ensures Distinct([]) && forall s: int :: s in [] <==> 0 <= s < NShards && a[s] !in t
  {
  }

  lemma TargetList(t: Table, a: seq<int>)
    requires Consistent(t, a, []) && !Settled(t)
    ensures Lists(Get(t, MinGid(t)), Positions(a, MinGid(t)))
    ensures Get(t, MaxGid(t)) != [] && t[MaxGid(t)][0] !in Positions(a, MinGid(t))
  {
    SourceAndTarget(t, a);
    FirstShard(t, a);
    var to := MinGid(t);
    if to !in t {
      forall s | 0 <= s < NShards
        ensures a[s] != to
      {
        assert s !in [];
      }
      assert Positions(a, to) == {};
    }
  }

  // ----- the measure

  /** The sum of squared loads, counted shard by shard. */
  ghost function Crowding(a: seq<int>, k: nat): nat
    requires k <= |a|
  {
    if k == 0 then 0 else Crowding(a, k - 1) + Load(a, a[k - 1])
  }

  ghost function Below(a: seq<int>, g: int, k: nat): nat
    requires k <= |a|
  {
    if k == 0 then 0 else Below(a, g, k - 1) + if a[k - 1] == g then 1 else 0
  }

  lemma {:induction false} BelowIsLoad(a: seq<int>, g: int, k: nat)
    requires k <= |a|
    ensures Below(a, g, k) == Load(a[..k], g)
  {
    if k > 0 {
      BelowIsLoad(a, g, k - 1);
      assert a[..k][..k - 1] == a[..k - 1];
      assert Positions(a[..k], g) == Positions(a[..k - 1], g) + if a[k - 1] == g then {k - 1} else {};
    }
  }

  lemma {:induction false} CrowdingAfterMove(a: seq<int>, s: nat, to: int, k: nat)
    requires s < |a| && a[s] != to && k <= |a|
    ensures Crowding(a[s := to], k) == Crowding(a, k) - Below(a, a[s], k) + Below(a, to, k)
                                       + if s < k then Load(a, to) + 2 - Load(a, a[s]) else 0
  {
    hide Load;
    if k > 0 {
      CrowdingAfterMove(a, s, to, k - 1);
      LoadAfterMove(a, s, to, a[s := to][k - 1]);
    }
  }

  /** A move from a group to one with at least two shards less makes the sum of squares smaller. */
  lemma CrowdingDrops(a: seq<int>, s: nat, to: int)
    requires s < |a| && a[s] != to && Load(a, a[s]) >= Load(a, to) + 2
    ensures Crowding(a[s := to], |a|) < Crowding(a, |a|)
  {
    hide Load;
    CrowdingAfterMove(a, s, to, |a|);
    BelowIsLoad(a, a[s], |a|);
    BelowIsLoad(a, to, |a|);
    assert a[..|a|] == a;
  }

  /** Each round empties group 0 a little more or, once it is empty, makes the sum of squares smaller. */
  lemma ShiftDecreases(t: Table, a: seq<int>)
    requires Consistent(t, a, []) && !Settled(t)
    ensures Get(t, MaxGid(t)) != []
    ensures var a' := Shifted(t, a);
            && |a'| == |a|
            && (Load(a', NONE) < Load(a, NONE) ||
                (Load(a', NONE) == Load(a, NONE) && Crowding(a', |a'|) < Crowding(a, |a|)))
  {
    hide Load, Crowding;
    SourceAndTarget(t, a);
    FirstShard(t, a);
    var from, to := MaxGid(t), MinGid(t);
    var s := t[from][0];
    LoadAfterMove(a, s, to, NONE);
    if from != NONE {
      EveryGroupEligible(t, a, []);
      assert from in Eligible(t);
      TableLoad(t, a, [], from);
      TableLoad(t, a, [], to);
      CrowdingDrops(a, s, to);
    }
  }

  /** The whole loop, on the table and on the assignment. */
  ghost function Rebalance(t: Table, a: seq<int>): (r: (Table, seq<int>))
    requires Consistent(t, a, [])
    ensures Consistent(r.0, r.1, []) && Settled(r.0)
    decreases Load(a, NONE), Crowding(a, |a|)
  {
    if Settled(t) then (t, a)
    else
      ShiftConsistent(t, a);
      ShiftDecreases(t, a);
      Rebalance(Shift(t), Shifted(t, a))
  }

  // ----- what the loop achieves

  /** Every shard belongs to one of the groups. */
  ghost predicate AllIn(a: seq<int>, groups: set<int>) {
    forall s | 0 <= s < |a| :: a[s] in groups
  }

  /** The loads of the groups differ by at most one. */
  ghost predicate Balanced(a: seq<int>, groups: set<int>) {
    forall g, h | g in groups && h in groups :: Load(a, g) <= Load(a, h) + 1
  }

  lemma SettledIsBalanced(t: Table, a: seq<int>)
    requires Consistent(t, a, []) && Settled(t)
    ensures AllIn(a, t.Keys - {NONE}) && Balanced(a, t.Keys - {NONE})
  {
    hide Load;
    NonEmpty(t, a);
    EveryGroupEligible(t, a, []);
    assert MaxGid(t) in Eligible(t);
    forall s | 0 <= s < NShards
      ensures a[s] in t.Keys - {NONE}
    {
      assert s !in [];
      assert s in Positions(a, a[s]) && s in t[a[s]];
    }
    forall g, h | g in t.Keys - {NONE} && h in t.Keys - {NONE}
      ensures Load(a, g) <= Load(a, h) + 1
    {
      TableLoad(t, a, [], g);
      TableLoad(t, a, [], h);
      assert Heavier(t, MaxGid(t), g) && Lighter(t, MinGid(t), h);
    }
  }

  lemma {:induction false} RebalanceKeys(t: Table, a: seq<int>)
    requires Consistent(t, a, [])
    ensures t.Keys - {NONE} != {} ==> Rebalance(t, a).0.Keys == t.Keys
    ensures t.Keys - {NONE} == {} ==> Rebalance(t, a).0.Keys == {NONE, -1}
    decreases Load(a, NONE), Crowding(a, |a|)
  {
    hide Load, Crowding, Consistent;
    if !Settled(t) {
      ShiftConsistent(t, a);
      ShiftDecreases(t, a);
      RebalanceKeys(Shift(t), Shifted(t, a));
      EveryGroupEligible(t, a, []);
      SourceAndTarget(t, a);
      assert Shift(t).Keys == t.Keys + {MinGid(t)};
      if t.Keys - {NONE} == {} {
        assert MaxGid(t) in t.Keys && MaxGid(t) == NONE;
        assert t.Keys == {NONE};
        assert -1 in Shift(t).Keys - {NONE};
      } else {
        assert Shift(t).Keys == t.Keys;
      }
    } else {
      SettledIsBalanced(t, a);
      ZeroOwner(t, a);
    }
  }

  lemma ZeroOwner(t: Table, a: seq<int>)
    requires Consistent(t, a, []) && AllIn(a, t.Keys - {NONE})
    ensures t.Keys - {NONE} != {}
  {
    assert a[0] in t.Keys - {NONE};
  }

  /** From every table with a group, even one that Move unbalanced, the loop ends with every shard
      in a group and the loads at most one apart. */
  lemma RebalanceIsFair(t: Table, a: seq<int>)
    requires Consistent(t, a, []) && t.Keys - {NONE} != {}
    ensures AllIn(Rebalance(t, a).1, t.Keys - {NONE}) && Balanced(Rebalance(t, a).1, t.Keys - {NONE})
  {
    var r := Rebalance(t, a);
    RebalanceKeys(t, a);
    SettledIsBalanced(r.0, r.1);
  }

  // ----- what Join moves

  /** No new group has more shards than an old one. */
  ghost predicate NoneAbove(a: seq<int>, newer: set<int>, older: set<int>) {
    forall g, h | g in newer && h in older :: Load(a, g) <= Load(a, h)
  }

  /** Every shard stayed or went from an old group to a new one. */
  ghost predicate OnlyInto(before: seq<int>, a: seq<int>, older: set<int>, newer: set<int>) {
    |before| == |a| && forall s | 0 <= s < |a| :: a[s] == before[s] || (before[s] in older && a[s] in newer)
  }

  /** Old groups level among themselves, new groups level among themselves and not above them. */
  ghost predicate Joining(t: Table, a: seq<int>, older: set<int>, newer: set<int>) {
    && Consistent(t, a, []) && t.Keys == older + newer && NONE !in t
    && older * newer == {}
    && Balanced(a, older) && Balanced(a, newer) && NoneAbove(a, newer, older)
  }

  lemma JoiningSource(t: Table, a: seq<int>, older: set<int>, newer: set<int>)
    requires Joining(t, a, older, newer) && !Settled(t)
    ensures MaxGid(t) in older && MinGid(t) in newer && Load(a, MaxGid(t)) >= Load(a, MinGid(t)) + 2
    ensures forall g | g in older + newer :: Load(a, MinGid(t)) <= Load(a, g) <= Load(a, MaxGid(t))
  {
    hide Load;
    EveryGroupEligible(t, a, []);
    NonEmpty(t, a);
    var from, to := MaxGid(t), MinGid(t);
    assert from in Eligible(t) && to in Eligible(t);
    forall g | g in t
      ensures |t[g]| == Load(a, g)
    {
      TableLoad(t, a, [], g);
    }
    forall g | g in t
      ensures Load(a, to) <= Load(a, g) <= Load(a, from)
    {
      assert Heavier(t, from, g) && Lighter(t, to, g);
    }
  }

  lemma ShiftJoining(t: Table, a: seq<int>, before: seq<int>, older: set<int>, newer: set<int>)
    requires Joining(t, a, older, newer) && OnlyInto(before, a, older, newer) && !Settled(t)
    ensures Get(t, MaxGid(t)) != []
    ensures Joining(Shift(t), Shifted(t, a), older, newer) && OnlyInto(before, Shifted(t, a), older, newer)
  {
    hide Load, Settled, Consistent;
    ShiftConsistent(t, a);
    FirstShard(t, a);
    JoiningSource(t, a, older, newer);
    var from, to := MaxGid(t), MinGid(t);
    var a' := Shifted(t, a);
    assert Shift(t).Keys == t.Keys;
    forall g
      ensures Load(a', g) == Load(a, g) + (if g == to then 1 else if g == from then -1 else 0)
    {
      LoadAfterMove(a, t[from][0], to, g);
    }
  }

  lemma {:induction false} RebalanceJoining(t: Table, a: seq<int>, before: seq<int>, older: set<int>, newer: set<int>)
    requires Joining(t, a, older, newer) && OnlyInto(before, a, older, newer)
    ensures var r := Rebalance(t, a); Joining(r.0, r.1, older, newer) && OnlyInto(before, r.1, older, newer)
    decreases Load(a, NONE), Crowding(a, |a|)
  {
    hide Load, Crowding, OnlyInto, Balanced, NoneAbove;
    if !Settled(t) {
      ShiftDecreases(t, a);
      ShiftJoining(t, a, before, older, newer);
      RebalanceJoining(Shift(t), Shifted(t, a), before, older, newer);
    }
  }

  /** From a balanced assignment, the loop moves shards only from old groups to new ones. */
  lemma RebalanceIntoNew(t: Table, a: seq<int>, older: set<int>, newer: set<int>)
    requires Consistent(t, a, []) && t.Keys == older + newer && NONE !in t && older * newer == {}
    requires older != {} && AllIn(a, older) && Balanced(a, older)
    ensures OnlyInto(a, Rebalance(t, a).1, older, newer)
  {
    hide Load, Rebalance, Balanced, Consistent;
    StartsJoining(t, a, older, newer);
    RebalanceJoining(t, a, a, older, newer);
  }

  lemma StartsJoining(t: Table, a: seq<int>, older: set<int>, newer: set<int>)
    requires Consistent(t, a, []) && t.Keys == older + newer && NONE !in t && older * newer == {}
    requires AllIn(a, older) && Balanced(a, older) && older != {}
    ensures Joining(t, a, older, newer) && OnlyInto(a, a, older, newer) && t.Keys - {NONE} != {}
  {
    forall g | g in newer
      ensures Load(a, g) == 0
    {
      assert g !in older * newer;
      assert Positions(a, g) == {};
    }
    var g := Pick(older);
    assert g in t.Keys - {NONE};
  }

  // ----- Leave

  /** Takes the listed groups out of the table, setting their shards aside in order. */
  ghost function Depart(t: Table, gids: seq<int>): (Table, seq<int>) {
    if gids == [] then (t, [])
    else
      var r := Depart(t - {gids[0]}, gids[1..]);
      (r.0, Get(t, gids[0]) + r.1)
  }

  lemma DepartOne(t: Table, a: seq<int>, pending: seq<int>, g: int)
    requires Consistent(t, a, pending)
    ensures Consistent(t - {g}, a, pending + Get(t, g))
  {
    if g in t {
      var xs := t[g];
      forall s
        ensures s in pending + xs <==> 0 <= s < NShards && a[s] !in t - {g}
      {
        assert s in xs <==> s in Positions(a, g);
      }
      forall i, j | 0 <= i < |pending| && 0 <= j < |xs|
        ensures pending[i] != xs[j]
      {
        assert pending[i] in pending && xs[j] in xs && xs[j] in Positions(a, g);
      }
      assert Distinct(pending + xs);
    } else {
      assert t - {g} == t && pending + [] == pending;
    }
  }

  lemma {:induction false} DepartConsistent(t: Table, a: seq<int>, pending: seq<int>, gids: seq<int>)
    requires Consistent(t, a, pending)
    ensures var r := Depart(t, gids); Consistent(r.0, a, pending + r.1) && r.0.Keys == t.Keys - (set g | g in gids)
    decreases |gids|
  {
    hide Consistent;
    if gids == [] {
      assert pending + [] == pending;
    } else {
      var g := gids[0];
      DepartOne(t, a, pending, g);
      DepartConsistent(t - {g}, a, pending + Get(t, g), gids[1..]);
      var r := Depart(t - {g}, gids[1..]);
      assert pending + Get(t, g) + r.1 == pending + (Get(t, g) + r.1);
      assert forall h :: h in gids <==> h == g || h in gids[1..];
    }
  }

  /** The assignment with the pending shards' owner replaced by `nobody`. */
  ghost function Disowned(a: seq<int>, pending: seq<int>, nobody: int): seq<int> {
    seq(|a|, s requires 0 <= s < |a| => if s in pending then nobody else a[s])
  }

  /** Who a pending shard belonged to does not matter to the table. */
  lemma DisownedConsistent(t: Table, a: seq<int>, pending: seq<int>, nobody: int)
    requires Consistent(t, a, pending) && nobody !in t
    ensures var b := Disowned(a, pending, nobody);
            Consistent(t, b, pending) && forall g | g in t :: Load(b, g) == Load(a, g)
  {
    hide Lists, Distinct;
    var b := Disowned(a, pending, nobody);
    forall g | g in t
      ensures Positions(b, g) == Positions(a, g)
    {
    }
  }

  /** A number that is not in the set. */
  ghost function Outside(numbers: set<int>): (x: int)
    ensures x !in numbers
  {
    Bound(numbers)
  }

  ghost function Bound(numbers: set<int>): (m: int)
    ensures forall x | x in numbers :: x < m
  {
    if numbers == {} then 0
    else
      Some(numbers);
      var x :| x in numbers;
      var m := Bound(numbers - {x});
      assert forall y | y in numbers :: y == x || y in numbers - {x};
      if x < m then m else x + 1
  }

  lemma Some(numbers: set<int>)
    requires numbers != {}
    ensures exists x :: x in numbers
  {
    var x := Pick(numbers);
  }

  /** One pending shard goes to the emptiest group, or to group -1 if there is none. */
  lemma SpreadOne(t: Table, a: seq<int>, pending: seq<int>)
    requires Consistent(t, a, pending) && pending != [] && forall s | s in pending :: a[s] != -1
    ensures var s, to := pending[0], MinGid(t);
            && 0 <= s < |a| && to != NONE && (t.Keys - {NONE} != {} ==> to in t)
            && Consistent(t[to := Get(t, to) + [s]], a[s := to], pending[1..])
            && forall r | r in pending[1..] :: r in pending && a[s := to][r] != -1
  {
    hide Load, Lists, Positions, Distinct, IsMin;
    EveryGroupEligible(t, a, pending);
    var s, to := pending[0], MinGid(t);
    assert s in pending;
    PendingTail(pending);
    SpreadTarget(t, a, pending);
    var t', a' := t[to := Get(t, to) + [s]], a[s := to];
    forall g | g in t'
      ensures Lists(t'[g], Positions(a', g))
    {
      LoadAfterMove(a, s, to, g);
      if g == to {
        NotThere(a, to, s);
        ListsAppend(Get(t, to), Positions(a, to), s);
      }
    }
  }

  lemma SpreadTarget(t: Table, a: seq<int>, pending: seq<int>)
    requires Consistent(t, a, pending) && Eligible(t) == t.Keys - {NONE} && forall s | s in pending :: a[s] != -1
    ensures MinGid(t) != NONE && (t.Keys - {NONE} != {} ==> MinGid(t) in t)
    ensures MinGid(t) !in t ==> MinGid(t) == -1
    ensures Lists(Get(t, MinGid(t)), Positions(a, MinGid(t)))
  {
    var to := MinGid(t);
    if to !in t {
      assert to == -1;
      forall s | 0 <= s < NShards
        ensures a[s] != to
      {
        assert a[s] !in t ==> s in pending;
      }
      assert Positions(a, to) == {};
    }
  }

  lemma NotThere(a: seq<int>, g: int, s: nat)
    requires s < |a| && a[s] != g
    ensures s !in Positions(a, g)
  {
  }

  lemma PendingTail(pending: seq<int>)
    requires pending != [] && Distinct(pending)
    ensures Distinct(pending[1..]) && forall s :: s in pending[1..] <==> s in pending && s != pending[0]
  {
    assert forall s :: s in pending <==> s == pending[0] || s in pending[1..];
  }

  /** The loop that hands out the pending shards. */
  ghost function Spread(t: Table, a: seq<int>, pending: seq<int>): (r: (Table, seq<int>))
    requires Consistent(t, a, pending) && forall s | s in pending :: a[s] != -1
    ensures Consistent(r.0, r.1, []) && (t.Keys - {NONE} != {} ==> r.0.Keys == t.Keys)
    decreases |pending|
  {
    if pending == [] then (t, a)
    else
      SpreadOne(t, a, pending);
      var s, to := pending[0], MinGid(t);
      assert to in t ==> t[to := Get(t, to) + [s]].Keys == t.Keys;
      Spread(t[to := Get(t, to) + [s]], a[s := to], pending[1..])
  }

  lemma SpreadOneBalanced(t: Table, a: seq<int>, pending: seq<int>)
    requires Consistent(t, a, pending) && t.Keys - {NONE} != {} && pending != [] && Balanced(a, t.Keys - {NONE})
    ensures 0 <= pending[0] < |a| && Balanced(a[pending[0] := MinGid(t)], t.Keys - {NONE})
  {
    hide Load;
    EveryGroupEligible(t, a, pending);
    var s, to, groups := pending[0], MinGid(t), t.Keys - {NONE};
    assert s in pending;
    forall g | g in groups
      ensures Load(a, to) <= Load(a, g)
      ensures Load(a[s := to], g) == if g == to then Load(a, g) + 1 else Load(a, g)
    {
      TableLoad(t, a, pending, g);
      TableLoad(t, a, pending, to);
      assert Lighter(t, to, g);
      LoadAfterMove(a, s, to, g);
    }
  }

  /** Handing out keeps loads level, and moves nothing that was not pending. */
  lemma {:induction false} SpreadKeeps(t: Table, a: seq<int>, pending: seq<int>)
    requires Consistent(t, a, pending) && t.Keys - {NONE} != {} && forall s | s in pending :: a[s] != -1
    ensures var b := Spread(t, a, pending).1;
            && |b| == |a|
            && (Balanced(a, t.Keys - {NONE}) ==> Balanced(b, t.Keys - {NONE}))
            && (forall s | 0 <= s < |a| && s !in pending :: b[s] == a[s])
            && (NONE !in t ==> AllIn(b, t.Keys))
    decreases |pending|
  {
    hide Load, Balanced, Lists, Positions, Distinct;
    if pending != [] {
      SpreadOne(t, a, pending);
      if Balanced(a, t.Keys - {NONE}) {
        SpreadOneBalanced(t, a, pending);
      }
      var s, to := pending[0], MinGid(t);
      var t' := t[to := Get(t, to) + [s]];
      assert t'.Keys == t.Keys;
      SpreadKeeps(t', a[s := to], pending[1..]);
      assert forall x | x !in pending :: x != s && x !in pending[1..];
    } else {
      forall s | 0 <= s < |a|
        ensures a[s] in t
      {
        assert s !in pending;
      }
    }
  }
}
