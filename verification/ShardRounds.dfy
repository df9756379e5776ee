/** Join and Leave without the table: round by round on the shard array, which fixes the outcome
    (src/shardctrler/state_machine.go:61-87, 121-142). */
module ShardRounds {
  import opened FiniteSets
  import opened IntSort
  import opened ShardTables
  import opened ShardBalance
  import opened ShardFewest
  import opened ShardCtrler

  /** The group with the most shards, the smallest number first. */
  ghost predicate Fullest(a: seq<int>, groups: set<int>, g: int) {
    g in groups && forall h | h in groups :: Load(a, h) < Load(a, g) || (Load(a, h) == Load(a, g) && g <= h)
  }

  /** The group with the fewest shards, the smallest number first. */
  ghost predicate Emptiest(a: seq<int>, groups: set<int>, g: int) {
    g in groups && forall h | h in groups :: Load(a, g) < Load(a, h) || (Load(a, h) == Load(a, g) && g <= h)
  }

  /** The lowest shard of a group. */
  ghost predicate LowestOf(a: seq<int>, g: int, s: int) {
    0 <= s < |a| && a[s] == g && forall r | 0 <= r < s :: a[r] != g
  }

  /** The lowest shard of `from` goes to `to`, the emptiest group; `from` is group 0 while it has shards,
      and then the fullest group, as long as that has two shards more. */
  ghost predicate GoesFromTo(a: seq<int>, a': seq<int>, groups: set<int>, from: int, to: int, s: int) {
    && (if Load(a, NONE) > 0 then from == NONE else Fullest(a, groups, from) && Load(a, from) >= Load(a, to) + 2)
    && Emptiest(a, groups, to) && LowestOf(a, from, s) && a' == a[s := to]
  }

  ghost predicate Round(a: seq<int>, a': seq<int>, groups: set<int>) {
    exists from, to, s :: GoesFromTo(a, a', groups, from, to, s)
  }

  /** The loop as a sequence of shard arrays; it stops when no round is left. */
  ghost predicate Rounds(trace: seq<seq<int>>, groups: set<int>) {
    && trace != [] && (forall k | 0 <= k < |trace| - 1 :: Round(trace[k], trace[k + 1], groups))
    && (var last := trace[|trace| - 1]; Load(last, NONE) == 0 && Balanced(last, groups))
  }

  lemma RoundsCons(a: seq<int>, trace: seq<seq<int>>, groups: set<int>)
    requires Rounds(trace, groups) && Round(a, trace[0], groups)
    ensures Rounds([a] + trace, groups)
  {
    hide Round, Load, Balanced;
    var all := [a] + trace;
    forall k | 0 <= k < |all| - 1
      ensures Round(all[k], all[k + 1], groups)
    {
      if k > 0 {
        assert all[k] == trace[k - 1] && all[k + 1] == trace[k];
      }
    }
  }

  /** The rounds leave no choice: from one shard array there is one way, to one end. */
  lemma {:induction false} RoundsAgree(trace: seq<seq<int>>, trace': seq<seq<int>>, groups: set<int>)
    requires Rounds(trace, groups) && Rounds(trace', groups) && trace[0] == trace'[0] && groups != {} && NONE !in groups
    ensures trace == trace'
    decreases |trace|
  {
    hide Load, Balanced;
    if |trace| > 1 && |trace'| > 1 {
      RoundAgrees(trace[0], trace[1], trace'[1], groups);
      RoundsTail(trace, groups);
      RoundsTail(trace', groups);
      RoundsAgree(trace[1..], trace'[1..], groups);
      assert trace == [trace[0]] + trace[1..] && trace' == [trace'[0]] + trace'[1..];
    } else if |trace| > 1 {
      RoundsWhenUneven(trace[0], trace[1], groups);
    } else if |trace'| > 1 {
      RoundsWhenUneven(trace[0], trace'[1], groups);
    }
  }

  lemma RoundsTail(trace: seq<seq<int>>, groups: set<int>)
    requires Rounds(trace, groups) && |trace| > 1
    ensures Rounds(trace[1..], groups)
  {
    hide Round, Load, Balanced;
    forall k | 0 <= k < |trace| - 2
      ensures Round(trace[1..][k], trace[1..][k + 1], groups)
    {
      assert Round(trace[k + 1], trace[k + 2], groups);
    }
  }

  lemma RoundAgrees(a: seq<int>, b: seq<int>, b': seq<int>, groups: set<int>)
    requires Round(a, b, groups) && Round(a, b', groups)
    ensures b == b'
  {
    hide Load;
    var f, t, s :| GoesFromTo(a, b, groups, f, t, s);
    var f', t', s' :| GoesFromTo(a, b', groups, f', t', s');
  }

  lemma RoundsWhenUneven(a: seq<int>, b: seq<int>, groups: set<int>)
    requires Round(a, b, groups)
    ensures Load(a, NONE) > 0 || !Balanced(a, groups)
  {
    hide Load;
    var f, t, s :| GoesFromTo(a, b, groups, f, t, s);
    assert Load(a, NONE) > 0 || (f in groups && t in groups && Load(a, f) > Load(a, t) + 1);
  }

  // ----- the table shows the extremes

  lemma FirstIsLowest(t: Table, a: seq<int>, g: int)
    requires Consistent(t, a, []) && g in t && t[g] != [] && Ascending(t[g])
    ensures LowestOf(a, g, t[g][0])
  {
    assert t[g][0] in t[g] && t[g][0] in Positions(a, g);
    assert forall x | x in t[g] :: x >= t[g][0];
    forall r | 0 <= r < t[g][0]
      ensures a[r] != g
    {
      assert r !in t[g] && r !in Positions(a, g);
    }
  }

  lemma MinIsEmptiest(t: Table, a: seq<int>, groups: set<int>)
    requires Consistent(t, a, []) && groups == t.Keys - {NONE} && groups != {}
    ensures Emptiest(a, groups, MinGid(t))
  {
    hide Load;
    EveryGroupEligible(t, a, []);
    var to := MinGid(t);
    TableLoad(t, a, [], to);
    forall h | h in groups
      ensures Load(a, to) < Load(a, h) || (Load(a, h) == Load(a, to) && to <= h)
    {
      TableLoad(t, a, [], h);
      assert Lighter(t, to, h);
    }
  }

  lemma MaxIsFullest(t: Table, a: seq<int>, groups: set<int>)
    requires Consistent(t, a, []) && groups == t.Keys && NONE !in t
    ensures Fullest(a, groups, MaxGid(t)) && Load(a, NONE) == 0
  {
    NonEmpty(t, a);
    AllListed(t, a);
    assert Positions(a, NONE) == {};
    hide Load;
    var from := MaxGid(t);
    TableLoad(t, a, [], from);
    forall h | h in groups
      ensures Load(a, h) < Load(a, from) || (Load(a, h) == Load(a, from) && from <= h)
    {
      TableLoad(t, a, [], h);
      assert Heavier(t, from, h);
    }
  }

  // ----- Join among live groups

  ghost predicate GiversInOrder(t: Table, givers: set<int>) {
    forall g | g in givers && g in t :: Ascending(t[g])
  }

  lemma {:induction false} LiveRounds(t: Table, a: seq<int>, givers: set<int>, receivers: set<int>, q: nat)
    returns (trace: seq<seq<int>>)
    requires Levelling(t, a, givers, receivers, q) && GiversInOrder(t, givers)
    ensures Rounds(trace, t.Keys) && trace[0] == a && trace[|trace| - 1] == Rebalance(t, a).1
    decreases Load(a, NONE), Crowding(a, |a|)
  {
    hide Load, Crowding, Times, Full, Drained, Round, Balanced, OnlyInto;
    if Settled(t) {
      trace := [a];
      SettledIsBalanced(t, a);
      assert t.Keys - {NONE} == t.Keys;
      MaxIsFullest(t, a, t.Keys);
    } else {
      ShiftDecreases(t, a);
      NothingMoved(a, givers, receivers);
      ShiftLevels(t, a, a, givers, receivers, q);
      LiveRound(t, a, givers, receivers, q);
      trace := LiveRounds(Shift(t), Shifted(t, a), givers, receivers, q);
      RoundsCons(a, trace, t.Keys);
      trace := [a] + trace;
    }
  }

  lemma NothingMoved(a: seq<int>, givers: set<int>, receivers: set<int>)
    ensures OnlyInto(a, a, givers, receivers)
  {
  }

  lemma LiveRound(t: Table, a: seq<int>, givers: set<int>, receivers: set<int>, q: nat)
    requires Levelling(t, a, givers, receivers, q) && GiversInOrder(t, givers) && !Settled(t)
    ensures Get(t, MaxGid(t)) != [] && Round(a, Shifted(t, a), t.Keys)
    ensures Shift(t).Keys == t.Keys && GiversInOrder(Shift(t), givers)
  {
    hide Load, Times, Consistent, Settled, Full, Drained;
    ShiftConsistent(t, a);
    GiverGives(t, a, givers, receivers, q);
    ExtremesApart(t, a, q);
    var from, to := MaxGid(t), MinGid(t);
    assert t.Keys - {NONE} == t.Keys;
    MinIsEmptiest(t, a, t.Keys);
    MaxIsFullest(t, a, t.Keys);
    FirstIsLowest(t, a, from);
    assert GoesFromTo(a, Shifted(t, a), t.Keys, from, to, t[from][0]);
    forall g | g in givers && g in Shift(t)
      ensures Ascending(Shift(t)[g])
    {
      assert g !in givers * receivers;
    }
  }

  // ----- Join from no group at all

  /** Everything not handed out yet is on group 0, in order; what is handed out is level. */
  ghost predicate Founding(t: Table, a: seq<int>, groups: set<int>) {
    && Consistent(t, a, []) && t.Keys == groups + {NONE} && NONE !in groups && groups != {}
    && Ascending(t[NONE]) && Balanced(a, groups)
  }

  lemma {:induction false} FoundingRounds(t: Table, a: seq<int>, groups: set<int>) returns (trace: seq<seq<int>>)
    requires Founding(t, a, groups)
    ensures Rounds(trace, groups) && trace[0] == a && trace[|trace| - 1] == Rebalance(t, a).1
    decreases Load(a, NONE), Crowding(a, |a|)
  {
    hide Load, Crowding, Round, Balanced;
    if Settled(t) {
      trace := [a];
      SettledIsBalanced(t, a);
      NoneLeft(t, a);
    } else {
      ShiftDecreases(t, a);
      FoundingRound(t, a, groups);
      trace := FoundingRounds(Shift(t), Shifted(t, a), groups);
      RoundsCons(a, trace, groups);
      trace := [a] + trace;
    }
  }

  lemma NoneLeft(t: Table, a: seq<int>)
    requires AllIn(a, t.Keys - {NONE})
    ensures Load(a, NONE) == 0
  {
    assert Positions(a, NONE) == {};
  }

  lemma FoundingRound(t: Table, a: seq<int>, groups: set<int>)
    requires Founding(t, a, groups) && !Settled(t)
    ensures Get(t, MaxGid(t)) != [] && Round(a, Shifted(t, a), groups) && Founding(Shift(t), Shifted(t, a), groups)
  {
    hide Load, Consistent, Settled;
    ShiftConsistent(t, a);
    assert t.Keys - {NONE} == groups;
    FromNone(t, a, groups);
    var to, s := MinGid(t), t[NONE][0];
    MinIsEmptiest(t, a, groups);
    FirstIsLowest(t, a, NONE);
    TableLoad(t, a, [], NONE);
    assert GoesFromTo(a, Shifted(t, a), groups, NONE, to, s);
    assert Shift(t).Keys == t.Keys;
    forall g
      ensures Load(Shifted(t, a), g) == Load(a, g) + (if g == to then 1 else if g == NONE then -1 else 0)
    {
      LoadAfterMove(a, s, to, g);
    }
  }

  /** Only group 0 gives. */
  lemma FromNone(t: Table, a: seq<int>, groups: set<int>)
    requires Founding(t, a, groups) && !Settled(t)
    ensures MaxGid(t) == NONE && t[NONE] != [] && MinGid(t) in groups
  {
    hide Load;
    assert t.Keys - {NONE} == groups;
    EveryGroupEligible(t, a, []);
    var from, to := MaxGid(t), MinGid(t);
    assert to in Eligible(t);
    if t[NONE] == [] {
      NonEmpty(t, a);
      assert 0 in Positions(a, a[0]) && 0 in t[a[0]];
      assert Heavier(t, from, a[0]);
      TableLoad(t, a, [], from);
      TableLoad(t, a, [], to);
    }
  }

  // ----- Join

  lemma {:induction false} ShardsAscend(shards: seq<int>, g: int, k: nat)
    requires k <= |shards|
    ensures Ascending(ShardsOf(shards, g, k)) && forall s | s in ShardsOf(shards, g, k) :: s < k
  {
    if k > 0 {
      ShardsAscend(shards, g, k - 1);
      var xs := ShardsOf(shards, g, k - 1);
      assert forall i | 0 <= i < |xs| :: xs[i] in xs;
    }
  }

  lemma TableAscends(groups: set<int>, shards: seq<int>)
    ensures forall g | g in TableOf(groups, shards) :: Ascending(TableOf(groups, shards)[g])
  {
    forall g | g in TableOf(groups, shards)
      ensures Ascending(TableOf(groups, shards)[g])
    {
      ShardsAscend(shards, g, |shards|);
    }
  }

  lemma Quotient(m: nat) returns (q: nat)
    requires m > 0
    ensures Times(m, q) <= NShards < Times(m, q + 1)
  {
    q := NShards / m;
  }

  /** From every served configuration, Join that leaves a group is exactly these rounds. */
  lemma JoinRounds(c: Config, more: map<int, Servers>) returns (trace: seq<seq<int>>)
    requires Served(c) && LeavesAGroup(c, Join(more))
    ensures var d := Apply(c, Join(more));
            Rounds(trace, d.groups.Keys) && trace[0] == c.shards && trace[|trace| - 1] == d.shards
  {
    hide Rounds, Rebalance, Levelling, Founding, Consistent;
    var groups := Joined(c.groups, more).Keys;
    var t, a := TableOf(groups, c.shards), c.shards;
    JoinTable(c, more);
    TableAscends(groups, c.shards);
    ShardCtrler.SomeGroup(c, more);
    if c.groups == map[] {
      StartsFounding(t, a, groups);
      trace := FoundingRounds(t, a, groups);
    } else {
      var q := Quotient(|groups|);
      var givers := set g | g in groups && Load(a, g) > q;
      StartsLevelling(t, a, givers, groups - givers, q);
      trace := LiveRounds(t, a, givers, groups - givers, q);
    }
  }

  lemma StartsFounding(t: Table, a: seq<int>, groups: set<int>)
    requires Consistent(t, a, []) && t.Keys == groups + {NONE} && NONE !in groups && groups != {}
    requires Ascending(t[NONE]) && forall s | 0 <= s < |a| :: a[s] == NONE
    ensures Founding(t, a, groups)
  {
    forall g | g in groups
      ensures Load(a, g) == 0
    {
      assert Positions(a, g) == {};
    }
  }

  // ----- Leave

  /** `g` is named before `h` is. */
  ghost predicate NamedBefore(gids: seq<int>, g: int, h: int) {
    exists p :: 0 <= p < |gids| && gids[p] == g && h !in gids[..p + 1]
  }

  /** Shard `s` is set aside before shard `r`. */
  ghost predicate Earlier(shards: seq<int>, gids: seq<int>, s: int, r: int) {
    && 0 <= s < |shards| && 0 <= r < |shards|
    && (if shards[s] == shards[r] then s < r else NamedBefore(gids, shards[s], shards[r]))
  }

  ghost predicate EachEarlier(shards: seq<int>, gids: seq<int>, order: seq<int>) {
    forall i, j | 0 <= i < j < |order| :: Earlier(shards, gids, order[i], order[j])
  }

  /** The shards of the named groups: group by group as named, and within a group from the lowest. */
  ghost predicate SetAside(shards: seq<int>, gids: seq<int>, order: seq<int>) {
    && (forall s :: s in order <==> 0 <= s < |shards| && shards[s] in gids)
    && EachEarlier(shards, gids, order)
  }

  /** Each shard in turn goes to the group that is then the emptiest. */
  ghost predicate PlacedInTurn(trace: seq<seq<int>>, order: seq<int>, groups: set<int>) {
    && |trace| == |order| + 1
    && forall k | 0 <= k < |order| :: PlacedNext(trace[k], trace[k + 1], order[k], groups)
  }

  ghost predicate PlacedNext(a: seq<int>, a': seq<int>, s: int, groups: set<int>) {
    0 <= s < |a| && exists to :: Emptiest(a, groups, to) && a' == a[s := to]
  }

  lemma {:induction false} SpreadInTurn(t: Table, a: seq<int>, pending: seq<int>) returns (trace: seq<seq<int>>)
    requires Consistent(t, a, pending) && t.Keys - {NONE} != {} && forall s | s in pending :: a[s] != -1
    ensures PlacedInTurn(trace, pending, t.Keys - {NONE})
    ensures trace[0] == a && trace[|pending|] == Spread(t, a, pending).1
    decreases |pending|
  {
    hide Load, Lists, Positions, Distinct, Emptiest;
    if pending == [] {
      trace := [a];
    } else {
      SpreadOne(t, a, pending);
      PendingEmptiest(t, a, pending);
      var s, to := pending[0], MinGid(t);
      var t', a' := t[to := Get(t, to) + [s]], a[s := to];
      assert t'.Keys == t.Keys;
      var rest := SpreadInTurn(t', a', pending[1..]);
      trace := [a] + rest;
      assert PlacedNext(a, a', s, t.Keys - {NONE});
      forall k | 0 <= k < |pending|
        ensures PlacedNext(trace[k], trace[k + 1], pending[k], t.Keys - {NONE})
      {
        if k > 0 {
          assert PlacedNext(rest[k - 1], rest[k], pending[1..][k - 1], t.Keys - {NONE});
        }
      }
    }
  }

  lemma PendingEmptiest(t: Table, a: seq<int>, pending: seq<int>)
    requires Consistent(t, a, pending) && t.Keys - {NONE} != {}
    ensures Emptiest(a, t.Keys - {NONE}, MinGid(t))
  {
    hide Load;
    EveryGroupEligible(t, a, pending);
    var to := MinGid(t);
    TableLoad(t, a, pending, to);
    forall h | h in t.Keys - {NONE}
      ensures Load(a, to) < Load(a, h) || (Load(a, h) == Load(a, to) && to <= h)
    {
      TableLoad(t, a, pending, h);
      assert Lighter(t, to, h);
    }
  }

  /** The shard belongs to one of the named groups, which is in the table. */
  ghost predicate Departs(t: Table, a: seq<int>, gids: seq<int>, s: int) {
    0 <= s < |a| && a[s] in t && a[s] in gids
  }

  /** The order in which the first loop of Leave sets shards aside. */
  lemma {:induction false} DepartInOrder(t: Table, a: seq<int>, gids: seq<int>)
    requires forall g | g in t :: Lists(t[g], Positions(a, g)) && Ascending(t[g])
    ensures var order := Depart(t, gids).1;
            && (forall s | s in order :: Departs(t, a, gids, s))
            && EachEarlier(a, gids, order)
    decreases |gids|
  {
    if gids != [] {
      var g := gids[0];
      DepartInOrder(t - {g}, a, gids[1..]);
      var mine, rest := Get(t, g), Depart(t - {g}, gids[1..]).1;
      forall s | s in mine + rest
        ensures Departs(t, a, gids, s) && (s in mine ==> a[s] == g) && (s in rest ==> a[s] != g)
      {
        if s in mine {
          assert g in t && s in t[g] && s in Positions(a, g);
        }
        if s in rest {
          assert Departs(t - {g}, a, gids[1..], s);
        }
      }
      var order := mine + rest;
      forall i, j | 0 <= i < j < |order|
        ensures Earlier(a, gids, order[i], order[j])
      {
        assert order[i] in order && order[j] in order;
        Turns(t, a, gids, mine, rest, i, j);
      }
    }
  }

  lemma Turns(t: Table, a: seq<int>, gids: seq<int>, mine: seq<int>, rest: seq<int>, i: nat, j: nat)
    requires gids != [] && i < j < |mine + rest| && Ascending(mine) && Distinct(mine)
    requires forall s | s in mine :: 0 <= s < |a| && a[s] == gids[0]
    requires forall s | s in rest :: 0 <= s < |a| && a[s] != gids[0]
    requires EachEarlier(a, gids[1..], rest)
    ensures Earlier(a, gids, (mine + rest)[i], (mine + rest)[j])
  {
    var order := mine + rest;
    if j < |mine| {
      assert order[i] == mine[i] && order[j] == mine[j] && mine[i] in mine && mine[j] in mine;
    } else {
      var q := j - |mine|;
      assert order[j] == rest[q] && rest[q] in rest;
      if i < |mine| {
        assert order[i] == mine[i] && mine[i] in mine;
        assert gids[..1] == [gids[0]];
        assert gids[0] == a[order[i]] && a[order[j]] !in gids[..0 + 1];
      } else {
        var p := i - |mine|;
        assert order[i] == rest[p] && rest[p] in rest;
        if a[rest[p]] != a[rest[q]] {
          LaterNamed(gids, a[rest[p]], a[rest[q]]);
        }
      }
    }
  }

  lemma LaterNamed(gids: seq<int>, g: int, h: int)
    requires gids != [] && NamedBefore(gids[1..], g, h) && h != gids[0]
    ensures NamedBefore(gids, g, h)
  {
    var p :| 0 <= p < |gids[1..]| && gids[1..][p] == g && h !in gids[1..][..p + 1];
    assert gids[..p + 2] == [gids[0]] + gids[1..][..p + 1];
    assert gids[p + 1] == g && h !in gids[..(p + 1) + 1];
  }

  /** From every served configuration, Leave that leaves a group sets the shards aside in this order and
      places them in turn. */
  lemma LeaveRounds(c: Config, gids: seq<int>) returns (order: seq<int>, trace: seq<seq<int>>)
    requires Served(c) && Apply(c, Leave(gids)).groups != map[]
    ensures var d := Apply(c, Leave(gids));
            && SetAside(c.shards, gids, order) && PlacedInTurn(trace, order, d.groups.Keys)
            && |trace[0]| == |c.shards| && trace[|order|] == d.shards
            && forall s | 0 <= s < |c.shards| :: trace[0][s] == c.shards[s] || (s in order && trace[0][s] !in d.groups)
  {
    hide Consistent, Depart, Spread, TableOf, Outside, Bound, Load, PlacedInTurn, SetAside;
    var groups := c.groups - (set g | g in gids);
    assert groups.Keys != {} && groups.Keys == c.groups.Keys - (set g | g in gids);
    var t := TableOf(c.groups.Keys, c.shards);
    LeaveTable(c, gids);
    LiveTable(c);
    var (t', pending) := Depart(t, gids);
    order := pending;
    assert t'.Keys == groups.Keys && t'.Keys - {NONE} == groups.Keys;
    trace := SpreadInTurn(t', Departed(c, gids), pending);
    AsideInOrder(c, gids);
    PendingInRange(t', c.shards, pending);
  }

  lemma AsideInOrder(c: Config, gids: seq<int>)
    requires WellFormed(c)
    ensures SetAside(c.shards, gids, Depart(TableOf(c.groups.Keys, c.shards), gids).1)
  {
    var t := TableOf(c.groups.Keys, c.shards);
    TableConsistent(c.groups.Keys, c.shards);
    TableAscends(c.groups.Keys, c.shards);
    DepartInOrder(t, c.shards, gids);
    var order := Depart(t, gids).1;
    forall s
      ensures s in order <==> 0 <= s < |c.shards| && c.shards[s] in gids
    {
      assert s in order ==> Departs(t, c.shards, gids, s);
      if 0 <= s < |c.shards| {
        DepartPending(t, c.shards, gids, s);
      }
    }
    assert forall i | 0 <= i < |order| :: order[i] in order;
  }
}
