/** The shard controller: a numbered history of configurations, changed by Join, Leave and Move
    (src/shardctrler/state_machine.go). */
module ShardCtrler {
  import opened FiniteSets
  import opened ShardTables
  import opened ShardBalance
  import opened ShardFewest

  type Servers = seq<string>

  datatype Config = Config(num: nat, shards: seq<int>, groups: map<int, Servers>)

  function DefaultConfig(): Config {
    Config(0, seq(NShards, _ => NONE), map[])
  }

  ghost predicate WellFormed(c: Config) {
    |c.shards| == NShards
  }

  // ----- the table of a configuration

  /** The shards of a group below `k`, in order. */
  ghost function ShardsOf(shards: seq<int>, g: int, k: nat): seq<int>
    requires k <= |shards|
  {
    if k == 0 then [] else ShardsOf(shards, g, k - 1) + if shards[k - 1] == g then [k - 1] else []
  }

  ghost function TableUpTo(groups: set<int>, shards: seq<int>, k: nat): Table
    requires k <= |shards|
  {
    map g | g in groups + (set s | 0 <= s < k :: shards[s]) :: ShardsOf(shards, g, k)
  }

  ghost function TableOf(groups: set<int>, shards: seq<int>): Table {
    TableUpTo(groups, shards, |shards|)
  }

  lemma {:induction false} ShardsOfLists(shards: seq<int>, g: int, k: nat)
    requires k <= |shards|
    ensures Lists(ShardsOf(shards, g, k), set s | 0 <= s < k && shards[s] == g)
  {
    if k > 0 {
      ShardsOfLists(shards, g, k - 1);
      var before := set s | 0 <= s < k - 1 && shards[s] == g;
      assert (set s | 0 <= s < k && shards[s] == g) == before + if shards[k - 1] == g then {k - 1} else {};
      if shards[k - 1] == g {
        ListsAppend(ShardsOf(shards, g, k - 1), before, k - 1);
      }
    }
  }

  lemma TableConsistent(groups: set<int>, shards: seq<int>)
    requires |shards| == NShards
    ensures Consistent(TableOf(groups, shards), shards, [])
  {
    var t := TableOf(groups, shards);
    forall g | g in t
      ensures Lists(t[g], Positions(shards, g))
    {
      ShardsOfLists(shards, g, |shards|);
      assert Positions(shards, g) == set s | 0 <= s < |shards| && shards[s] == g;
    }
    forall s | 0 <= s < NShards
      ensures shards[s] in t
    {
    }
  }

  // ----- the operations on values

  datatype Op =
    | Join(groups: map<int, Servers>)
    | Leave(gids: seq<int>)
    | Move(shard: nat, gid: int)

  /** A group that is already there keeps its servers. */
  function Joined(groups: map<int, Servers>, more: map<int, Servers>): map<int, Servers> {
    more + groups
  }

  ghost function JoinShards(shards: seq<int>, groups: set<int>): (r: seq<int>)
    requires |shards| == NShards
    ensures |r| == NShards
  {
    TableConsistent(groups, shards);
    Rebalance(TableOf(groups, shards), shards).1
  }

  /** `left` are the groups that remain. */
  ghost function LeaveShards(c: Config, gids: seq<int>, left: set<int>): (r: seq<int>)
    requires WellFormed(c) && left == c.groups.Keys - (set g | g in gids)
    ensures |r| == NShards
  {
    if left == {} then seq(NShards, _ => NONE)
    else
      LeaveTable(c, gids);
      var (t, pending) := Depart(TableOf(c.groups.Keys, c.shards), gids);
      Spread(t, Departed(c, gids), pending).1
  }

  /** The shard array with nobody in the place of the departing groups. */
  ghost function Departed(c: Config, gids: seq<int>): seq<int> {
    var (t, pending) := Depart(TableOf(c.groups.Keys, c.shards), gids);
    Disowned(c.shards, pending, Outside(t.Keys + {-1}))
  }

  lemma LeaveTable(c: Config, gids: seq<int>)
    requires WellFormed(c)
    ensures var t := TableOf(c.groups.Keys, c.shards);
            var r := Depart(t, gids);
            && Consistent(t, c.shards, [])
            && Consistent(r.0, c.shards, r.1) && r.0.Keys == t.Keys - (set g | g in gids)
            && Consistent(r.0, Departed(c, gids), r.1) && (forall s | s in r.1 :: Departed(c, gids)[s] != -1)
            && (forall g | g in r.0 :: Load(Departed(c, gids), g) == Load(c.shards, g))
            && c.groups.Keys - (set g | g in gids) <= r.0.Keys
  {
    hide Consistent, Depart, Load, Outside, Bound;
    var t := TableOf(c.groups.Keys, c.shards);
    TableConsistent(c.groups.Keys, c.shards);
    DepartConsistent(t, c.shards, [], gids);
    var r := Depart(t, gids);
    assert [] + r.1 == r.1;
    DisownedConsistent(r.0, c.shards, r.1, Outside(r.0.Keys + {-1}));
    PendingInRange(r.0, c.shards, r.1);
  }

  lemma PendingInRange(t: Table, a: seq<int>, pending: seq<int>)
    requires Consistent(t, a, pending)
    ensures |a| == NShards && forall s | s in pending :: 0 <= s < NShards
  {
  }

  /** The shard a Move names exists; the source panics on any other. */
  ghost predicate Takes(op: Op) {
    op.Move? ==> op.shard < NShards
  }

  ghost function Apply(c: Config, op: Op): (r: Config)
    requires WellFormed(c) && Takes(op)
    ensures WellFormed(r) && r.num == c.num + 1
  {
    match op
    case Join(more) =>
      var groups := Joined(c.groups, more);
      Config(c.num + 1, JoinShards(c.shards, groups.Keys), groups)
    case Leave(gids) =>
      var groups := c.groups - (set g | g in gids);
      Config(c.num + 1, LeaveShards(c, gids, groups.Keys), groups)
    case Move(shard, gid) =>
      Config(c.num + 1, c.shards[shard := gid], c.groups)
  }

  // ----- what a configuration should be

  /** Every shard is served by a live group, of a number other than 0, which stands for "no group";
      with no live group, by none. */
  ghost predicate Served(c: Config) {
    && WellFormed(c) && NONE !in c.groups
    && (if c.groups == map[] then forall s | 0 <= s < NShards :: c.shards[s] == NONE
        else AllIn(c.shards, c.groups.Keys))
  }

  ghost predicate Fair(c: Config) {
    Served(c) && Balanced(c.shards, c.groups.Keys)
  }

  /** The configuration has, or would get, a group, and none numbered 0. */
  ghost predicate LeavesAGroup(c: Config, op: Op) {
    op.Join? ==> (c.groups != map[] || op.groups != map[]) && NONE !in op.groups
  }

  ghost predicate MovesToLive(c: Config, op: Op) {
    op.Move? ==> op.gid in c.groups
  }

  lemma JoinTable(c: Config, more: map<int, Servers>)
    requires Served(c) && NONE !in more
    ensures var groups := Joined(c.groups, more).Keys;
            && Consistent(TableOf(groups, c.shards), c.shards, [])
            && TableOf(groups, c.shards).Keys == if c.groups == map[] then groups + {NONE} else groups
  {
    var groups := Joined(c.groups, more).Keys;
    TableConsistent(groups, c.shards);
    var t := TableOf(groups, c.shards);
    if c.groups == map[] {
      assert c.shards[0] == NONE;
      assert c.shards[0] in t;
    }
  }

  /** Join balances everything, whatever Move did before, exactly when it leaves a group. */
  lemma JoinIsFair(c: Config, more: map<int, Servers>)
    requires Served(c)
    ensures Fair(Apply(c, Join(more))) <==> LeavesAGroup(c, Join(more))
    ensures Served(Apply(c, Join(more))) <==> LeavesAGroup(c, Join(more))
    ensures c.groups == map[] && more == map[] ==> AllIn(Apply(c, Join(more)).shards, {-1})
  {
    hide Consistent, Balanced, Rebalance, TableOf;
    var groups := Joined(c.groups, more);
    if NONE in more {
      assert NONE in groups;
      return;
    }
    var t := TableOf(groups.Keys, c.shards);
    JoinTable(c, more);
    RebalanceKeys(t, c.shards);
    if LeavesAGroup(c, Join(more)) {
      SomeGroup(c, more);
      assert t.Keys - {NONE} == groups.Keys;
      RebalanceIsFair(t, c.shards);
    } else {
      assert groups == map[] && t.Keys == {NONE};
      var r := Rebalance(t, c.shards);
      SettledIsBalanced(r.0, r.1);
      assert {NONE, -1} - {NONE} == {-1};
      var d := Apply(c, Join(more));
      assert d.shards == r.1 && d.shards[0] in {-1};
    }
  }

  lemma SomeGroup(c: Config, more: map<int, Servers>)
    requires c.groups != map[] || more != map[]
    ensures Joined(c.groups, more) != map[] && Joined(c.groups, more).Keys != {}
  {
    if c.groups != map[] {
      assert c.groups.Keys != {};
      var g := Pick(c.groups.Keys);
      assert g in Joined(c.groups, more);
    } else {
      assert more.Keys != {};
      var g := Pick(more.Keys);
      assert g in Joined(c.groups, more);
    }
  }

  /** From a fair configuration with groups, Join moves shards only to groups that were not there. */
  lemma JoinMovesIntoNew(c: Config, more: map<int, Servers>)
    requires Fair(c) && c.groups != map[] && NONE !in more
    ensures var d := Apply(c, Join(more));
            forall s | 0 <= s < NShards && d.shards[s] != c.shards[s] :: d.shards[s] in more && d.shards[s] !in c.groups
  {
    hide Consistent, Balanced, Rebalance, TableOf;
    var groups := Joined(c.groups, more);
    var older, newer := c.groups.Keys, more.Keys - c.groups.Keys;
    assert older + newer == groups.Keys;
    JoinTable(c, more);
    assert older != {};
    RebalanceIntoNew(TableOf(groups.Keys, c.shards), c.shards, older, newer);
  }

  /** From every served configuration, even one that Move unbalanced, Join moves as few shards as any
      balanced assignment to the same groups would. */
  lemma JoinMovesFewest(c: Config, more: map<int, Servers>, other: seq<int>)
    requires Served(c) && NONE !in more
    requires var groups := Joined(c.groups, more).Keys;
             |other| == NShards && AllIn(other, groups) && Balanced(other, groups)
    ensures |Moves(c.shards, Apply(c, Join(more)).shards)| <= |Moves(c.shards, other)|
  {
    hide Consistent, Balanced, Rebalance, TableOf;
    var groups, d := Joined(c.groups, more), Apply(c, Join(more));
    if c.groups == map[] {
      assert forall s | 0 <= s < NShards :: other[s] in groups && c.shards[s] == NONE;
      SubsetSize(Moves(c.shards, d.shards), Moves(c.shards, other));
    } else {
      JoinTable(c, more);
      RebalanceMovesFewest(TableOf(groups.Keys, c.shards), c.shards, other);
    }
  }

  lemma {:induction false} DepartPending(t: Table, a: seq<int>, gids: seq<int>, s: int)
    requires Consistent(t, a, []) && 0 <= s < NShards
    ensures s in Depart(t, gids).1 <==> a[s] in gids
  {
    DepartConsistent(t, a, [], gids);
    var r := Depart(t, gids);
    assert [] + r.1 == r.1;
    assert s !in [];
    assert a[s] in t;
  }

  /** Leave moves exactly the shards of departing groups, keeps loads level, and leaves every shard
      served. */
  lemma LeaveMoves(c: Config, gids: seq<int>)
    requires Served(c)
    ensures var d := Apply(c, Leave(gids));
            && Served(d) && (Fair(c) ==> Fair(d))
            && (d.groups != map[] ==> forall s | 0 <= s < NShards :: d.shards[s] != c.shards[s] <==> c.shards[s] in gids)
  {
    hide Consistent, Balanced, Depart, Spread, TableOf;
    var groups := c.groups - (set g | g in gids);
    var d := Apply(c, Leave(gids));
    if groups == map[] {
      assert groups.Keys == {};
      NoGroups(d.shards);
    } else {
      assert groups.Keys != {};
      var t := TableOf(c.groups.Keys, c.shards);
      LeaveTable(c, gids);
      LiveTable(c);
      var (t', pending) := Depart(t, gids);
      assert t'.Keys == groups.Keys && NONE !in t';
      assert t'.Keys - {NONE} == groups.Keys;
      SpreadKeeps(t', Departed(c, gids), pending);
      if Fair(c) {
        StillBalanced(c.shards, Departed(c, gids), c.groups.Keys, groups.Keys);
      }
      forall s | 0 <= s < NShards
        ensures d.shards[s] != c.shards[s] <==> c.shards[s] in gids
      {
        DepartPending(t, c.shards, gids, s);
        assert d.shards[s] in groups;
      }
    }
  }

  /** Any assignment of all shards to the remaining groups moves at least as many. */
  lemma LeaveMovesFewest(c: Config, gids: seq<int>, other: seq<int>)
    requires Served(c) && |other| == NShards
    requires var left := Apply(c, Leave(gids)).groups; left != map[] && AllIn(other, left.Keys)
    ensures |Moves(c.shards, Apply(c, Leave(gids)).shards)| <= |Moves(c.shards, other)|
  {
    LeaveMoves(c, gids);
    var d := Apply(c, Leave(gids));
    assert forall s | s in Moves(c.shards, d.shards) :: c.shards[s] in gids && other[s] in d.groups;
    SubsetSize(Moves(c.shards, d.shards), Moves(c.shards, other));
  }

  lemma NoGroups(shards: seq<int>)
    ensures Balanced(shards, {})
  {
  }

  lemma StillBalanced(shards: seq<int>, disowned: seq<int>, groups: set<int>, left: set<int>)
    requires Balanced(shards, groups) && left <= groups && forall g | g in left :: Load(disowned, g) == Load(shards, g)
    ensures Balanced(disowned, left)
  {
  }

  lemma LiveTable(c: Config)
    requires Served(c) && c.groups != map[]
    ensures TableOf(c.groups.Keys, c.shards).Keys == c.groups.Keys
  {
  }

  // ----- what an operation changes, configuration against configuration

  /** The named shard goes to the named group; no other shard and no group changes. */
  ghost predicate MovedBy(c: Config, d: Config, shard: nat, gid: int) {
    && d.num == c.num + 1 && d.groups == c.groups && |d.shards| == |c.shards| && shard < |c.shards|
    && d.shards[shard] == gid && forall s | 0 <= s < |c.shards| && s != shard :: d.shards[s] == c.shards[s]
  }

  lemma MoveChanges(c: Config, shard: nat, gid: int)
    requires WellFormed(c) && shard < NShards
    ensures MovedBy(c, Apply(c, Move(shard, gid)), shard, gid)
  {
  }

  /** The groups are the old ones with their old servers, and the new ones with those given. */
  ghost predicate JoinedBy(c: Config, d: Config, more: map<int, Servers>) {
    && d.num == c.num + 1 && |d.shards| == |c.shards|
    && (forall g :: g in d.groups <==> g in c.groups || g in more)
    && (forall g | g in d.groups :: d.groups[g] == if g in c.groups then c.groups[g] else more[g])
  }

  lemma JoinChanges(c: Config, more: map<int, Servers>)
    requires WellFormed(c)
    ensures JoinedBy(c, Apply(c, Join(more)), more)
  {
  }

  /** The groups are the old ones but those named, with their old servers. */
  ghost predicate LeftBy(c: Config, d: Config, gids: seq<int>) {
    && d.num == c.num + 1 && |d.shards| == |c.shards|
    && (forall g :: g in d.groups <==> g in c.groups && g !in gids)
    && (forall g | g in d.groups :: d.groups[g] == c.groups[g])
  }

  lemma LeaveChanges(c: Config, gids: seq<int>)
    requires WellFormed(c)
    ensures LeftBy(c, Apply(c, Leave(gids)), gids)
  {
  }

  // ----- runs

  ghost function Run(ops: seq<Op>): (configs: seq<Config>)
    requires forall i | 0 <= i < |ops| :: Takes(ops[i])
    ensures |configs| == |ops| + 1 && forall i | 0 <= i < |configs| :: WellFormed(configs[i]) && configs[i].num == i
  {
    if ops == [] then [DefaultConfig()]
    else
      var configs := Run(ops[..|ops| - 1]);
      configs + [Apply(configs[|configs| - 1], ops[|ops| - 1])]
  }

  /** Every Join leaves a group and every Move names one. */
  ghost predicate Sensible(ops: seq<Op>) {
    && (forall i | 0 <= i < |ops| :: Takes(ops[i]))
    && forall i | 0 <= i < |ops| :: LeavesAGroup(Run(ops)[i], ops[i]) && MovesToLive(Run(ops)[i], ops[i])
  }

  /** Applying more operations changes no earlier configuration. */
  lemma {:induction false} RunPrefix(ops: seq<Op>, k: nat)
    requires (forall i | 0 <= i < |ops| :: Takes(ops[i])) && k <= |ops|
    ensures Run(ops[..k]) == Run(ops)[..k + 1]
  {
    hide Apply;
    if k == |ops| {
      assert ops[..k] == ops;
    } else {
      var front := ops[..|ops| - 1];
      RunPrefix(front, k);
      assert front[..k] == ops[..k];
    }
  }

  lemma RunLast(ops: seq<Op>)
    requires (forall i | 0 <= i < |ops| :: Takes(ops[i])) && ops != []
    ensures var configs := Run(ops[..|ops| - 1]); Run(ops) == configs + [Apply(configs[|ops| - 1], ops[|ops| - 1])]
  {
    hide Apply;
  }

  lemma RunStep(ops: seq<Op>, k: nat)
    requires (forall i | 0 <= i < |ops| :: Takes(ops[i])) && k < |ops|
    ensures Run(ops)[k + 1] == Apply(Run(ops)[k], ops[k])
  {
    hide Apply, Run;
    RunPrefix(ops, k);
    RunPrefix(ops, k + 1);
    var upTo := ops[..k + 1];
    assert upTo[..k] == ops[..k] && upTo[k] == ops[k];
    RunLast(upTo);
    assert Run(ops)[k + 1] == Run(ops)[..k + 2][k + 1] && Run(ops)[k] == Run(ops)[..k + 1][k];
  }

  /** In every sensible run every configuration serves all shards; without Move, fairly. */
  lemma {:induction false} RunsServe(ops: seq<Op>, k: nat)
    requires Sensible(ops) && k <= |ops|
    ensures Served(Run(ops)[k]) && ((forall i | 0 <= i < k :: !ops[i].Move?) ==> Fair(Run(ops)[k]))
  {
    hide Served, Fair, Apply, Run;
    if k == 0 {
      RunStarts(ops);
      StartsFair();
    } else {
      RunsServe(ops, k - 1);
      RunStep(ops, k - 1);
      StepServes(Run(ops)[k - 1], ops[k - 1]);
    }
  }

  lemma RunStarts(ops: seq<Op>)
    requires forall i | 0 <= i < |ops| :: Takes(ops[i])
    ensures Run(ops)[0] == DefaultConfig()
  {
    RunPrefix(ops, 0);
  }

  lemma StartsFair()
    ensures Fair(DefaultConfig())
  {
  }

  lemma StepServes(c: Config, op: Op)
    requires Served(c) && Takes(op) && LeavesAGroup(c, op) && MovesToLive(c, op)
    ensures Served(Apply(c, op)) && (Fair(c) && !op.Move? ==> Fair(Apply(c, op)))
  {
    match op
    case Join(more) => JoinIsFair(c, more);
    case Leave(gids) => LeaveMoves(c, gids);
    case Move(shard, gid) =>
  }

  /** `Join({})` before any group: the shards go to a group -1 that does not exist. */
  lemma EmptyJoinUnserves()
    ensures var c := Apply(DefaultConfig(), Join(map[]));
            !Served(c) && forall s | 0 <= s < NShards :: c.shards[s] == -1
  {
    hide Apply;
    StartsFair();
    JoinIsFair(DefaultConfig(), map[]);
    var c := Apply(DefaultConfig(), Join(map[]));
    assert c.shards[0] == -1;
    EmptyJoinGroups();
  }

  lemma EmptyJoinGroups()
    ensures Apply(DefaultConfig(), Join(map[])).groups == map[]
  {
  }

  // ----- the object

  /** `copyGroups`. */
  method CopyGroups(groups: map<int, Servers>) returns (copy: map<int, Servers>)
    ensures copy == groups
  {
    copy := map[];
    var rest := groups.Keys;
    while rest != {}
      invariant rest <= groups.Keys && copy == map g | g in groups && g !in rest :: groups[g]
      decreases |rest|
    {
      ghost var some := Pick(rest);
      var gid :| gid in rest;
      copy := copy[gid := groups[gid]];
      rest := rest - {gid};
    }
  }

  /** Adds the groups that are not there yet. */
  method AddGroups(groups: map<int, Servers>, more: map<int, Servers>) returns (r: map<int, Servers>)
    ensures r == Joined(groups, more)
  {
    hide AddedBut, Joined;
    AddEnds(groups, groups, more);
    r := groups;
    var rest := more.Keys;
    while rest != {}
      invariant rest <= more.Keys && AddedBut(r, groups, more, rest)
      decreases |rest|
    {
      ghost var some := Pick(rest);
      var gid :| gid in rest;
      ghost var before := r;
      if gid !in r {
        r := r[gid := more[gid]];
      }
      AddOne(before, groups, more, rest, gid);
      rest := rest - {gid};
    }
    AddEnds(r, groups, more);
  }

  /** All groups of `more` but `rest` have been added. */
  ghost predicate AddedBut(r: map<int, Servers>, groups: map<int, Servers>, more: map<int, Servers>, rest: set<int>) {
    && (forall g :: g in r <==> g in groups || (g in more && g !in rest))
    && (forall g | g in r :: r[g] == if g in groups then groups[g] else more[g])
  }

  lemma AddEnds(r: map<int, Servers>, groups: map<int, Servers>, more: map<int, Servers>)
    ensures AddedBut(groups, groups, more, more.Keys)
    ensures AddedBut(r, groups, more, {}) ==> r == Joined(groups, more)
  {
    if AddedBut(r, groups, more, {}) {
      var j := Joined(groups, more);
      assert forall g :: g in r <==> g in j;
      assert r.Keys == j.Keys;
      assert forall g | g in r :: r[g] == j[g];
    }
  }

  lemma AddOne(r: map<int, Servers>, groups: map<int, Servers>, more: map<int, Servers>, rest: set<int>, gid: int)
    requires AddedBut(r, groups, more, rest) && gid in rest && gid in more
    ensures AddedBut(if gid in r then r else r[gid := more[gid]], groups, more, rest - {gid})
  {
  }

  /** A row for every group, all empty. */
  method EmptyRows(groups: map<int, Servers>) returns (t: Table)
    ensures t == map g | g in groups :: []
  {
    t := map[];
    var rest := groups.Keys;
    while rest != {}
      invariant rest <= groups.Keys && t == map g | g in groups && g !in rest :: []
      decreases |rest|
    {
      ghost var some := Pick(rest);
      var gid :| gid in rest;
      t := t[gid := []];
      rest := rest - {gid};
    }
  }

  lemma NoShardsYet(groups: map<int, Servers>, shards: seq<int>)
    ensures (map g | g in groups :: []) == TableUpTo(groups.Keys, shards, 0)
  {
    var t: Table := map g | g in groups :: [];
    assert t.Keys == TableUpTo(groups.Keys, shards, 0).Keys;
  }

  /** The table from group to shards. */
  method MakeTable(groups: map<int, Servers>, shards: seq<int>) returns (t: Table)
    ensures t == TableOf(groups.Keys, shards)
  {
    hide TableUpTo;
    t := EmptyRows(groups);
    NoShardsYet(groups, shards);
    for shard := 0 to |shards|
      invariant t == TableUpTo(groups.Keys, shards, shard)
    {
      var gid := shards[shard];
      TableStep(groups.Keys, shards, shard);
      t := t[gid := (if gid in t then t[gid] else []) + [shard]];
    }
  }

  /** A group that is not in the table yet has no shards so far. */
  lemma TableStep(groups: set<int>, shards: seq<int>, k: nat)
    requires k < |shards|
    ensures var t, g := TableUpTo(groups, shards, k), shards[k];
            TableUpTo(groups, shards, k + 1) == t[g := (if g in t then t[g] else []) + [k]]
  {
    var t, g := TableUpTo(groups, shards, k), shards[k];
    if g !in t {
      assert forall s | 0 <= s < k :: shards[s] in t;
      ShardsOfLists(shards, g, k);
      ListsSize(ShardsOf(shards, g, k), set s | 0 <= s < k && shards[s] == g);
      assert (set s | 0 <= s < k && shards[s] == g) == {};
    }
    var u := t[g := (if g in t then t[g] else []) + [k]];
    assert (set s | 0 <= s < k + 1 :: shards[s]) == (set s | 0 <= s < k :: shards[s]) + {g};
    var v := TableUpTo(groups, shards, k + 1);
    assert u.Keys == v.Keys;
    forall h | h in u
      ensures u[h] == v[h]
    {
      assert ShardsOf(shards, h, k) + [] == ShardsOf(shards, h, k);
    }
  }

  /** The shard array of a table. */
  method Flatten(t: Table, ghost a: seq<int>) returns (newShards: seq<int>)
    requires Consistent(t, a, [])
    ensures newShards == a
  {
    var owners := new int[NShards](_ => NONE);
    var rest := t.Keys;
    while rest != {}
      invariant rest <= t.Keys
      invariant forall s | 0 <= s < NShards && a[s] !in rest :: owners[s] == a[s]
      decreases |rest|
    {
      ghost var some := Pick(rest);
      var gid :| gid in rest;
      assert Lists(t[gid], Positions(a, gid));
      for i := 0 to |t[gid]|
        invariant forall s | 0 <= s < NShards && (a[s] !in rest || s in t[gid][..i]) :: owners[s] == a[s]
      {
        assert t[gid][i] in t[gid] && t[gid][i] in Positions(a, gid);
        owners[t[gid][i]] := gid;
      }
      assert t[gid][..|t[gid]|] == t[gid];
      assert forall s | 0 <= s < NShards && a[s] == gid :: s in Positions(a, gid);
      rest := rest - {gid};
    }
    newShards := owners[..];
  }

  class CtrlerStateMachine {
    var Configs: seq<Config>
    /** The operations applied so far. */
    ghost var ops: seq<Op>

    ghost predicate Valid()
      reads this
    {
      (forall i | 0 <= i < |ops| :: Takes(ops[i])) && Configs == Run(ops)
    }

    constructor ()
      ensures Valid() && ops == []
    {
      Configs := [DefaultConfig()];
      ops := [];
    }

    /** `Query`: the configuration asked for, or the latest. */
    method Query(num: int) returns (c: Config)
      requires Valid()
      ensures c == if 0 <= num < |Configs| then Configs[num] else Configs[|Configs| - 1]
      ensures c.num == if 0 <= num <= |ops| then num else |ops|
    {
      if num < 0 || num >= |Configs| {
        return Configs[|Configs| - 1];
      }
      return Configs[num];
    }

    ghost method Record(op: Op)
      requires (forall i | 0 <= i < |ops| :: Takes(ops[i])) && Takes(op)
      requires Configs == Run(ops) + [Apply(Run(ops)[|ops|], op)]
      modifies this`ops
      ensures Valid() && ops == old(ops) + [op]
    {
      hide Apply, Run;
      ops := ops + [op];
      assert ops[..|ops| - 1] == old(ops) && ops[|ops| - 1] == op;
      RunLast(ops);
    }

    /** `Join`: whatever order the maps are ranged over, the new configuration is the function
        `Apply` of the last one, and the earlier ones stay. */
    method Join(groups: map<int, Servers>)
      requires Valid()
      modifies this
      ensures Valid() && ops == old(ops) + [Op.Join(groups)]
      ensures Configs == old(Configs) + [Apply(old(Configs)[|old(Configs)| - 1], Op.Join(groups))]
      ensures JoinedBy(old(Configs)[|old(Configs)| - 1], Configs[|Configs| - 1], groups)
    {
      hide Run, Rebalance, TableOf, Consistent, Settled, JoinedBy;
      JoinChanges(Configs[|Configs| - 1], groups);
      var num := |Configs|;
      var lastConfig := Configs[num - 1];
      var newGroups := CopyGroups(lastConfig.groups);
      newGroups := AddGroups(newGroups, groups);
      var gidToShards := MakeTable(newGroups, lastConfig.shards);
      TableConsistent(newGroups.Keys, lastConfig.shards);
      ghost var a;
      gidToShards, a := Even(gidToShards, lastConfig.shards);
      var newShards := Flatten(gidToShards, a);
      Configs := Configs + [Config(num, newShards, newGroups)];
      Record(Op.Join(groups));
    }

    /** `Leave`. */
    method Leave(gids: seq<int>)
      requires Valid()
      modifies this
      ensures Valid() && ops == old(ops) + [Op.Leave(gids)]
      ensures Configs == old(Configs) + [Apply(old(Configs)[|old(Configs)| - 1], Op.Leave(gids))]
      ensures LeftBy(old(Configs)[|old(Configs)| - 1], Configs[|Configs| - 1], gids)
    {
      hide Run, Spread, TableOf, Consistent, Depart, Departed, Load, LeftBy;
      LeaveChanges(Configs[|Configs| - 1], gids);
      var num := |Configs|;
      var lastConfig := Configs[num - 1];
      var newGroups := CopyGroups(lastConfig.groups);
      var gidToShards := MakeTable(newGroups, lastConfig.shards);
      var unassigned;
      newGroups, gidToShards, unassigned := TakeOut(newGroups, gidToShards, gids);
      LeaveTable(lastConfig, gids);
      var newShards := seq(NShards, _ => NONE);
      if |newGroups| != 0 {
        assert newGroups.Keys != {};
        ghost var a;
        gidToShards, a := HandOut(gidToShards, Departed(lastConfig, gids), unassigned);
        newShards := Flatten(gidToShards, a);
      } else {
        assert newGroups == map[];
      }
      Configs := Configs + [Config(num, newShards, newGroups)];
      Record(Op.Leave(gids));
    }

    /** `Move`; an index outside the shard array panics. */
    method Move(shard: nat, gid: int)
      requires Valid() && shard < NShards
      modifies this
      ensures Valid() && ops == old(ops) + [Op.Move(shard, gid)]
      ensures Configs == old(Configs) + [Apply(old(Configs)[|old(Configs)| - 1], Op.Move(shard, gid))]
      ensures MovedBy(old(Configs)[|old(Configs)| - 1], Configs[|Configs| - 1], shard, gid)
    {
      hide Run, MovedBy;
      MoveChanges(Configs[|Configs| - 1], shard, gid);
      var num := |Configs|;
      var lastConfig := Configs[num - 1];
      var newGroups := CopyGroups(lastConfig.groups);
      Configs := Configs + [Config(num, lastConfig.shards[shard := gid], newGroups)];
      Record(Op.Move(shard, gid));
    }
  }

  /** The loop of `Join`. */
  method Even(t: Table, ghost a: seq<int>) returns (t': Table, ghost a': seq<int>)
    requires Consistent(t, a, [])
    ensures t' == Rebalance(t, a).0
    ensures a' == Rebalance(t, a).1 && Consistent(t', a', [])
  {
    hide Consistent, Crowding, Load;
    t', a' := t, a;
    while true
      invariant Consistent(t', a', []) && Rebalance(t', a') == Rebalance(t, a)
      decreases Load(a', NONE), Crowding(a', |a'|)
    {
      var maxGid := GidWithMaxShards(t');
      var minGid := GidWithMinShards(t');
      EveryGroupEligible(t', a', []);
      Found(t', a');
      if maxGid != NONE && |t'[maxGid]| - |t'[minGid]| <= 1 {
        break;
      }
      ShiftConsistent(t', a');
      ShiftDecreases(t', a');
      SourceAndTarget(t', a');
      ghost var next := Shift(t');
      a' := Shifted(t', a');
      t' := t'[minGid := (if minGid in t' then t'[minGid] else []) + [t'[maxGid][0]]];
      t' := t'[maxGid := t'[maxGid][1..]];
      assert t' == next;
    }
  }

  lemma Found(t: Table, a: seq<int>)
    requires Consistent(t, a, [])
    ensures MaxGid(t) in t && (MaxGid(t) != NONE ==> MinGid(t) in t)
  {
    NonEmpty(t, a);
    EveryGroupEligible(t, a, []);
    assert MaxGid(t) != NONE ==> MaxGid(t) in Eligible(t);
  }

  /** The first loop of `Leave`. */
  method TakeOut(groups: map<int, Servers>, t: Table, gids: seq<int>)
    returns (groups': map<int, Servers>, t': Table, unassigned: seq<int>)
    ensures groups' == groups - (set g | g in gids)
    ensures (t', unassigned) == Depart(t, gids)
  {
    groups', t', unassigned := groups, t, [];
    assert gids[0..] == gids && [] + Depart(t, gids).1 == Depart(t, gids).1;
    for i := 0 to |gids|
      invariant groups' == groups - (set g | g in gids[..i])
      invariant var r := Depart(t', gids[i..]); Depart(t, gids) == (r.0, unassigned + r.1)
    {
      var gid := gids[i];
      assert gids[..i + 1] == gids[..i] + [gid] && gids[i..][1..] == gids[i + 1..];
      ghost var later := Depart(t' - {gid}, gids[i + 1..]).1;
      assert unassigned + (Get(t', gid) + later) == unassigned + Get(t', gid) + later;
      if gid in groups' {
        groups' := groups' - {gid};
      }
      if gid in t' {
        unassigned := unassigned + t'[gid];
        t' := t' - {gid};
      } else {
        assert t' - {gid} == t' && unassigned + [] == unassigned;
      }
    }
    assert gids[..|gids|] == gids && unassigned + [] == unassigned;
  }

  /** The second loop of `Leave`. */
  method HandOut(t: Table, ghost a: seq<int>, unassigned: seq<int>) returns (t': Table, ghost a': seq<int>)
    requires Consistent(t, a, unassigned) && forall s | s in unassigned :: a[s] != -1
    ensures t' == Spread(t, a, unassigned).0
    ensures a' == Spread(t, a, unassigned).1 && Consistent(t', a', [])
  {
    hide Consistent;
    PendingInRange(t, a, unassigned);
    assert unassigned[0..] == unassigned;
    t', a' := t, a;
    for i := 0 to |unassigned|
      invariant Consistent(t', a', unassigned[i..]) && |a'| == |a|
      invariant forall s | s in unassigned[i..] :: 0 <= s < |a'| && a'[s] != -1
      invariant Spread(t', a', unassigned[i..]) == Spread(t, a, unassigned)
    {
      var shard := unassigned[i];
      var minGid := GidWithMinShards(t');
      SpreadOne(t', a', unassigned[i..]);
      assert unassigned[i..][1..] == unassigned[i + 1..];
      t' := t'[minGid := (if minGid in t' then t'[minGid] else []) + [shard]];
      a' := a'[shard := minGid];
    }
  }
}
