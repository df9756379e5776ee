/** The key/value model the tests check histories against (src/models/kv.go), and the locality
    theorem its `Partition` relies on. */
module KvModel {
  import opened Linearizability
  import opened Entries
  import opened CheckOperations
  import Search
  import Sorting

  datatype KvInput = KvInput(op: nat, key: string, value: string)
  datatype KvOutput = KvOutput(value: string)

  type KvOperation = Operation<KvInput, KvOutput>

  /** One key: 0 reads, 1 writes, anything else appends. */
  function Step(st: string, inp: KvInput, out: KvOutput): (bool, string) {
    if inp.op == 0 then (out.value == st, st)
    else if inp.op == 1 then (true, inp.value)
    else (true, st + inp.value)
  }

  function SingleKey(): Model<string, KvInput, KvOutput> {
    Model("", Step)
  }

  /** The whole store: a map of strings, absent keys reading as the empty string. */
  function Lookup(s: map<string, string>, key: string): string {
    if key in s then s[key] else ""
  }

  function StoreStep(s: map<string, string>, inp: KvInput, out: KvOutput): (bool, map<string, string>) {
    match inp.op
    case 0 => (out.value == Lookup(s, inp.key), s)
    case 1 => (true, s[inp.key := inp.value])
    case _ => (true, s[inp.key := Lookup(s, inp.key) + inp.value])
  }

  function Store(): Model<map<string, string>, KvInput, KvOutput> {
    Model(map[], StoreStep)
  }

  /** The operations on one key, in order. */
  function OnKey(ops: seq<KvOperation>, key: string): seq<KvOperation> {
    if ops == [] then []
    else (if ops[0].input.key == key then [ops[0]] else []) + OnKey(ops[1..], key)
  }

  // ----- projection

  lemma {:induction false} OnKeyCount(ops: seq<KvOperation>, key: string, x: KvOperation)
    ensures multiset(OnKey(ops, key))[x] == if x.input.key == key then multiset(ops)[x] else 0
  {
    if ops != [] {
      OnKeyCount(ops[1..], key, x);
      assert ops == [ops[0]] + ops[1..];
    }
  }

  lemma OnKeyMembers(ops: seq<KvOperation>, key: string, x: KvOperation)
    ensures x in OnKey(ops, key) <==> x in ops && x.input.key == key
  {
    OnKeyCount(ops, key, x);
    assert x in OnKey(ops, key) <==> x in multiset(OnKey(ops, key));
    assert x in ops <==> x in multiset(ops);
  }

  lemma {:induction false} OnKeyRealTime(lin: seq<KvOperation>, key: string)
    requires RealTimeOrdered(lin)
    ensures RealTimeOrdered(OnKey(lin, key))
  {
    if lin != [] {
      OnKeyRealTime(lin[1..], key);
      var rest := OnKey(lin[1..], key);
      forall x | x in rest
        ensures !(x.ret < lin[0].call)
      {
        OnKeyMembers(lin[1..], key, x);
        var j :| 0 <= j < |lin[1..]| && lin[1..][j] == x;
      }
      if lin[0].input.key == key {
        Search.PrependRealTime(lin[0], rest);
      }
    }
  }

  /** The store accepts an order exactly when every key accepts its part of it. */
  lemma {:induction false} StoreAccepts(s: map<string, string>, lin: seq<KvOperation>)
    ensures Accepted(Store(), s, lin) <==>
            forall key :: Accepted(SingleKey(), Lookup(s, key), OnKey(lin, key))
    decreases |lin|
  {
    if lin != [] {
      var x, rest := lin[0], lin[1..];
      var (ok, s') := StoreStep(s, x.input, x.output);
      var k := x.input.key;
      StoreAccepts(s', rest);
      assert Step(Lookup(s, k), x.input, x.output) == (ok, Lookup(s', k));
      assert OnKey(lin, k) == [x] + OnKey(rest, k) && OnKey(lin, k)[1..] == OnKey(rest, k);
      assert Accepted(SingleKey(), Lookup(s, k), OnKey(lin, k)) <==>
             ok && Accepted(SingleKey(), Lookup(s', k), OnKey(rest, k));
      forall key | key != k
        ensures OnKey(lin, key) == OnKey(rest, key) && Lookup(s', key) == Lookup(s, key)
      {
      }
    }
  }

  // ----- merging

  /** `lins` orders the remaining operations `ops` key by key. */
  ghost predicate InSync(ops: multiset<KvOperation>, lins: map<string, seq<KvOperation>>) {
    && (forall x | x in ops :: x.input.key in lins)
    && forall k, x | k in lins :: multiset(lins[k])[x] == if x.input.key == k then ops[x] else 0
  }

  lemma {:induction false} EarliestReturn(ops: multiset<KvOperation>) returns (y: KvOperation)
    requires ops != multiset{}
    ensures y in ops && forall z | z in ops :: y.ret <= z.ret
    decreases |ops|
  {
    var first :| first in ops;
    var rest := ops - multiset{first};
    y := first;
    if rest != multiset{} {
      var w := EarliestReturn(rest);
      if w.ret < first.ret {
        y := w;
      }
    }
    forall z | z in ops
      ensures y.ret <= z.ret
    {
      if z != first {
        assert z in rest;
      }
    }
  }

  /** The head of the key that holds the earliest return is minimal among all remaining operations. */
  lemma MinimalHead(ops: multiset<KvOperation>, lins: map<string, seq<KvOperation>>) returns (x: KvOperation)
    requires ops != multiset{} && InSync(ops, lins)
    requires forall z | z in ops :: z.call <= z.ret
    requires forall k | k in lins :: RealTimeOrdered(lins[k])
    ensures x in ops && x.input.key in lins && lins[x.input.key] != [] && lins[x.input.key][0] == x
    ensures forall z | z in ops :: !(z.ret < x.call)
  {
    var y := EarliestReturn(ops);
    var lin := lins[y.input.key];
    assert y in multiset(lin);
    x := lin[0];
    assert x in multiset(lin);
    var j :| 0 <= j < |lin| && lin[j] == y;
  }

  lemma InSyncRest(ops: multiset<KvOperation>, lins: map<string, seq<KvOperation>>, x: KvOperation)
    requires InSync(ops, lins) && x in ops && x.input.key in lins
    requires lins[x.input.key] != [] && lins[x.input.key][0] == x
    ensures InSync(ops - multiset{x}, lins[x.input.key := lins[x.input.key][1..]])
  {
    var k := x.input.key;
    HeadApart(lins[k]);
  }

  lemma HeadApart(lin: seq<KvOperation>)
    requires lin != []
    ensures multiset(lin) == multiset{lin[0]} + multiset(lin[1..])
  {
    assert lin == [lin[0]] + lin[1..];
  }

  lemma OnKeyCons(x: KvOperation, rest: seq<KvOperation>, k: string)
    ensures OnKey([x] + rest, k) == (if x.input.key == k then [x] else []) + OnKey(rest, k)
  {
    assert ([x] + rest)[1..] == rest;
  }

  lemma NothingLeft(ops: multiset<KvOperation>, lins: map<string, seq<KvOperation>>, k: string)
    requires InSync(ops, lins) && ops == multiset{} && k in lins
    ensures lins[k] == []
  {
    forall x: KvOperation
      ensures x !in multiset(lins[k])
    {
      assert ops[x] == 0;
      assert multiset(lins[k])[x] == if x.input.key == k then ops[x] else 0;
    }
    if lins[k] != [] {
      HeadCounted(lins[k]);
    }
  }

  lemma HeadCounted(lin: seq<KvOperation>)
    requires lin != []
    ensures lin[0] in multiset(lin)
  {
  }

  lemma TailRealTime(lin: seq<KvOperation>)
    requires lin != [] && RealTimeOrdered(lin)
    ensures RealTimeOrdered(lin[1..])
  {
  }

  ghost predicate Merged(
    ops: multiset<KvOperation>, lins: map<string, seq<KvOperation>>, lin: seq<KvOperation>)
  {
    && multiset(lin) == ops && RealTimeOrdered(lin)
    && forall k | k in lins :: OnKey(lin, k) == lins[k]
  }

  lemma MergeStep(
    ops: multiset<KvOperation>, lins: map<string, seq<KvOperation>>, x: KvOperation, rest: seq<KvOperation>)
    requires x in ops && x.input.key in lins && lins[x.input.key] != [] && lins[x.input.key][0] == x
    requires forall z | z in ops :: !(z.ret < x.call)
    requires Merged(ops - multiset{x}, lins[x.input.key := lins[x.input.key][1..]], rest)
    ensures Merged(ops, lins, [x] + rest)
  {
    hide OnKey, RealTimeOrdered;
    forall y | y in rest
      ensures !(y.ret < x.call)
    {
      assert y in multiset(rest);
    }
    Search.PrependRealTime(x, rest);
    var next := lins[x.input.key := lins[x.input.key][1..]];
    forall j | j in lins
      ensures OnKey([x] + rest, j) == lins[j]
    {
      OnKeyCons(x, rest, j);
      assert OnKey(rest, j) == next[j];
    }
  }

  /** Orders of the single keys merge into one real-time order of everything. */
  lemma {:induction false} Merge(ops: multiset<KvOperation>, lins: map<string, seq<KvOperation>>)
    returns (lin: seq<KvOperation>)
    requires InSync(ops, lins)
    requires forall z | z in ops :: z.call <= z.ret
    requires forall k | k in lins :: RealTimeOrdered(lins[k])
    ensures Merged(ops, lins, lin)
    decreases |ops|
  {
    if ops == multiset{} {
      lin := [];
      forall k | k in lins
        ensures lins[k] == []
      {
        NothingLeft(ops, lins, k);
      }
    } else {
      hide *;
      var x := MinimalHead(ops, lins);
      InSyncRest(ops, lins, x);
      TailRealTime(lins[x.input.key]);
      var rest := Merge(ops - multiset{x}, lins[x.input.key := lins[x.input.key][1..]]);
      MergeStep(ops, lins, x, rest);
      lin := [x] + rest;
    }
  }

  // ----- locality

  lemma WholeImpliesKeys(ops: seq<KvOperation>, key: string)
    requires Linearizable(Store(), ops)
    ensures Linearizable(SingleKey(), OnKey(ops, key))
  {
    var lin :| IsLinearization(Store(), map[], multiset(ops), lin);
    StoreAccepts(map[], lin);
    OnKeyRealTime(lin, key);
    forall x
      ensures multiset(OnKey(lin, key))[x] == multiset(OnKey(ops, key))[x]
    {
      OnKeyCount(lin, key, x);
      OnKeyCount(ops, key, x);
    }
    assert Lookup(map[], key) == "";
    assert IsLinearization(SingleKey(), "", multiset(OnKey(ops, key)), OnKey(lin, key));
  }

  ghost function Keys(ops: seq<KvOperation>): set<string> {
    set x | x in ops :: x.input.key
  }

  lemma ChosenInSync(ops: seq<KvOperation>, lins: map<string, seq<KvOperation>>)
    requires Complete(ops) && lins.Keys == Keys(ops)
    requires forall k | k in lins :: IsLinearization(SingleKey(), "", multiset(OnKey(ops, k)), lins[k])
    ensures InSync(multiset(ops), lins)
    ensures forall z | z in multiset(ops) :: z.call <= z.ret
    ensures forall k | k in lins :: RealTimeOrdered(lins[k]) && Accepted(SingleKey(), "", lins[k])
  {
    hide OnKey, Accepted, RealTimeOrdered;
    forall k, x: KvOperation | k in lins
      ensures multiset(lins[k])[x] == if x.input.key == k then multiset(ops)[x] else 0
    {
      OnKeyCount(ops, k, x);
    }
    forall z | z in multiset(ops)
      ensures z.call <= z.ret && z.input.key in lins
    {
      assert z in ops;
    }
  }

  lemma KeysImplyWhole(ops: seq<KvOperation>)
    requires Complete(ops)
    requires forall key | key in Keys(ops) :: Linearizable(SingleKey(), OnKey(ops, key))
    ensures Linearizable(Store(), ops)
  {
    hide OnKey, Accepted, RealTimeOrdered, Linearizable, InSync, Keys;
    var lins := map key | key in Keys(ops) :: ChosenLinearization(ops, key);
    ChosenInSync(ops, lins);
    var lin := Merge(multiset(ops), lins);
    forall key
      ensures Accepted(SingleKey(), Lookup(map[], key), OnKey(lin, key))
    {
      if key !in lins {
        NoSuchKey(ops, lin, key);
        NothingAccepted("");
      }
    }
    StoreAccepts(map[], lin);
    LinearizableBy(ops, lin);
  }

  lemma NothingAccepted(s: string)
    ensures Accepted(SingleKey(), s, [])
  {
  }

  lemma LinearizableBy(ops: seq<KvOperation>, lin: seq<KvOperation>)
    requires multiset(lin) == multiset(ops) && RealTimeOrdered(lin) && Accepted(Store(), map[], lin)
    ensures Linearizable(Store(), ops)
  {
    assert IsLinearization(Store(), map[], multiset(ops), lin);
  }

  lemma NoSuchKey(ops: seq<KvOperation>, lin: seq<KvOperation>, key: string)
    requires multiset(lin) == multiset(ops) && key !in Keys(ops)
    ensures OnKey(lin, key) == []
  {
    if OnKey(lin, key) != [] {
      var x := OnKey(lin, key)[0];
      OnKeyMembers(lin, key, x);
      PermutationMembers(lin, ops);
    }
  }

  ghost function ChosenLinearization(ops: seq<KvOperation>, key: string): (lin: seq<KvOperation>)
    requires Linearizable(SingleKey(), OnKey(ops, key))
    ensures IsLinearization(SingleKey(), "", multiset(OnKey(ops, key)), lin)
  {
    var lin :| IsLinearization(SingleKey(), "", multiset(OnKey(ops, key)), lin);
    lin
  }

  /** Locality: a history is linearizable against the whole store exactly when each key's
      subhistory is linearizable against the single-key model. */
  lemma Locality(ops: seq<KvOperation>)
    requires Complete(ops)
    ensures Linearizable(Store(), ops) <==>
            forall key | key in Keys(ops) :: Linearizable(SingleKey(), OnKey(ops, key))
  {
    if Linearizable(Store(), ops) {
      forall key | key in Keys(ops)
        ensures Linearizable(SingleKey(), OnKey(ops, key))
      {
        WholeImpliesKeys(ops, key);
      }
    } else if forall key | key in Keys(ops) :: Linearizable(SingleKey(), OnKey(ops, key)) {
      KeysImplyWhole(ops);
    }
  }

  // ----- `Partition`

  /** The order of `sort.Strings`. */
  predicate StringLess(a: string, b: string) {
    b != [] && (a == [] || a[0] < b[0] || (a[0] == b[0] && StringLess(a[1..], b[1..])))
  }

  lemma {:induction false} StringLessAsymmetric(a: string, b: string)
    requires StringLess(a, b)
    ensures !StringLess(b, a)
  {
    if a != [] && a[0] == b[0] {
      StringLessAsymmetric(a[1..], b[1..]);
    }
  }

  lemma {:induction false} StringLessTransitive(a: string, b: string, c: string)
    requires !StringLess(b, a) && !StringLess(c, b)
    ensures !StringLess(c, a)
  {
    if a != [] && b != [] && c != [] && a[0] == b[0] == c[0] {
      StringLessTransitive(a[1..], b[1..], c[1..]);
    }
  }

  /** `a` is a beginning of `b`, or has the smaller character where they first differ. */
  ghost predicate ComesBefore(a: string, b: string) {
    || (|a| < |b| && a == b[..|a|])
    || exists p: nat :: p < |a| && p < |b| && a[..p] == b[..p] && a[p] < b[p]
  }

  lemma {:induction false} NotAfterIsBefore(a: string, b: string)
    requires a != b && !StringLess(b, a)
    ensures ComesBefore(a, b)
  {
    if a != [] && b != [] {
      if a[0] == b[0] {
        assert a == [a[0]] + a[1..] && b == [b[0]] + b[1..];
        NotAfterIsBefore(a[1..], b[1..]);
        BeforeCons(a[0], a[1..], b[1..]);
      } else {
        assert a[..0] == b[..0] && a[0] < b[0];
      }
    }
  }

  lemma BeforeCons(c: char, a: string, b: string)
    requires ComesBefore(a, b)
    ensures ComesBefore([c] + a, [c] + b)
  {
    var x, y := [c] + a, [c] + b;
    if |a| < |b| && a == b[..|a|] {
      assert x == y[..|x|];
    } else {
      var p: nat :| p < |a| && p < |b| && a[..p] == b[..p] && a[p] < b[p];
      assert x[..p + 1] == [c] + a[..p] && y[..p + 1] == [c] + b[..p];
      assert x[p + 1] == a[p] && y[p + 1] == b[p];
    }
  }

  lemma StringLessIsWeakOrder()
    ensures Sorting.WeakOrder(StringLess)
  {
    forall a, b | StringLess(a, b)
      ensures !StringLess(b, a)
    {
      StringLessAsymmetric(a, b);
    }
    forall a, b, c | !StringLess(b, a) && !StringLess(c, b)
      ensures !StringLess(c, a)
    {
      StringLessTransitive(a, b, c);
    }
  }

  lemma {:induction false} OnKeySnoc(ops: seq<KvOperation>, x: KvOperation, k: string)
    ensures OnKey(ops + [x], k) == OnKey(ops, k) + if x.input.key == k then [x] else []
  {
    var tail := if x.input.key == k then [x] else [];
    if ops == [] {
      assert ops + [x] == [x] && [x][1..] == [] && tail + [] == tail && [] + tail == tail;
    } else {
      hide OnKey;
      OnKeySnoc(ops[1..], x, k);
      OnKeyHead(ops, k);
      OnKeyHead(ops + [x], k);
      var head, rest := (if ops[0].input.key == k then [ops[0]] else []), OnKey(ops[1..], k);
      assert (ops + [x])[1..] == ops[1..] + [x] && (ops + [x])[0] == ops[0];
      assert head + (rest + tail) == head + rest + tail;
    }
  }

  lemma OnKeyHead(ops: seq<KvOperation>, k: string)
    requires ops != []
    ensures OnKey(ops, k) == (if ops[0].input.key == k then [ops[0]] else []) + OnKey(ops[1..], k)
  {
  }

  /** `part` is what remains of `ops` when everything on other keys is left out, in the same order: `at`
      are the positions it comes from. */
  ghost predicate IsPart(ops: seq<KvOperation>, key: string, part: seq<KvOperation>, at: seq<nat>) {
    && |at| == |part| && (forall i, j | 0 <= i < j < |at| :: at[i] < at[j])
    && (forall k: nat :: k in at <==> k < |ops| && ops[k].input.key == key)
    && (forall i | 0 <= i < |at| :: at[i] < |ops| && part[i] == ops[at[i]])
  }

  ghost predicate SubHistory(ops: seq<KvOperation>, key: string, part: seq<KvOperation>) {
    exists at :: IsPart(ops, key, part, at)
  }

  lemma {:induction false} OnKeyIsPart(ops: seq<KvOperation>, key: string)
    ensures SubHistory(ops, key, OnKey(ops, key))
  {
    hide OnKey, IsPart;
    if ops == [] {
      NoPart(key);
    } else {
      var front, last := ops[..|ops| - 1], ops[|ops| - 1];
      OnKeyIsPart(front, key);
      var at :| IsPart(front, key, OnKey(front, key), at);
      OnKeySnoc(front, last, key);
      assert ops == front + [last] && OnKey(front, key) + [] == OnKey(front, key);
      PartSnoc(front, key, OnKey(front, key), at, last);
    }
  }

  lemma NoPart(key: string)
    ensures IsPart([], key, OnKey([], key), [])
  {
  }

  lemma PartSnoc(ops: seq<KvOperation>, key: string, part: seq<KvOperation>, at: seq<nat>, x: KvOperation)
    requires IsPart(ops, key, part, at)
    ensures if x.input.key == key then IsPart(ops + [x], key, part + [x], at + [|ops|]) else IsPart(ops + [x], key, part, at)
  {
    assert forall i | 0 <= i < |at| :: at[i] in at;
    forall k: nat
      ensures k in at + [|ops|] <==> k in at || k == |ops|
      ensures k in at <==> k < |ops| && (ops + [x])[k].input.key == key
    {
    }
  }

  /** The map `Partition` builds: each key that occurs, with its operations in order. */
  ghost predicate Grouped(m: map<string, seq<KvOperation>>, ops: seq<KvOperation>) {
    m.Keys == Keys(ops) && forall k | k in m :: m[k] == OnKey(ops, k)
  }

  method GroupByKey(history: seq<KvOperation>) returns (m: map<string, seq<KvOperation>>)
    ensures Grouped(m, history)
  {
    m := map[];
    for i := 0 to |history|
      invariant Grouped(m, history[..i])
    {
      var v := history[i];
      var key := v.input.key;
      GroupedSnoc(m, history[..i], v);
      assert history[..i + 1] == history[..i] + [v];
      m := m[key := (if key in m then m[key] else []) + [v]];
    }
    assert history[..|history|] == history;
  }

  lemma GroupedSnoc(m: map<string, seq<KvOperation>>, ops: seq<KvOperation>, v: KvOperation)
    requires Grouped(m, ops)
    ensures Grouped(m[v.input.key := (if v.input.key in m then m[v.input.key] else []) + [v]], ops + [v])
  {
    var key := v.input.key;
    var m' := m[key := (if key in m then m[key] else []) + [v]];
    forall k
      ensures k in Keys(ops + [v]) <==> k in Keys(ops) || k == key
    {
      if k == key {
        assert v in ops + [v];
      } else if k in Keys(ops) {
        var x :| x in ops && x.input.key == k;
        assert x in ops + [v];
      }
    }
    forall k | k in m'
      ensures m'[k] == OnKey(ops + [v], k)
    {
      OnKeySnoc(ops, v, k);
      if k !in m {
        NoSuchKey(ops, ops, k);
      }
    }
  }

  /** `KvModel.Partition`: one part per key that occurs, by increasing key. */
  method Partition(history: seq<KvOperation>) returns (parts: seq<seq<KvOperation>>, keys: seq<string>)
    ensures |parts| == |keys| && Sorting.Sorted(keys, StringLess)
    ensures forall k :: k in keys <==> k in Keys(history)
    ensures forall i | 0 <= i < |keys| :: parts[i] == OnKey(history, keys[i])
    ensures forall i, j | 0 <= i < j < |keys| :: keys[i] != keys[j]
    ensures forall i, j | 0 <= i < j < |keys| :: ComesBefore(keys[i], keys[j])
    ensures forall i | 0 <= i < |keys| :: SubHistory(history, keys[i], parts[i])
  {
    hide OnKey, SubHistory, ComesBefore;
    var m := GroupByKey(history);
    var order := KeyList(m.Keys);
    StringLessIsWeakOrder();
    var sorted := Sorting.Sort(order, StringLess);
    PermutationMembers(order, sorted);
    SortedKeysDistinct(order, sorted);
    parts := [];
    for i := 0 to |sorted|
      invariant |parts| == i && forall j | 0 <= j < i :: parts[j] == OnKey(history, sorted[j])
    {
      assert sorted[i] in order;
      parts := parts + [m[sorted[i]]];
    }
    keys := sorted;
    forall i, j | 0 <= i < j < |keys|
      ensures ComesBefore(keys[i], keys[j])
    {
      NotAfterIsBefore(keys[i], keys[j]);
    }
    forall i | 0 <= i < |keys|
      ensures SubHistory(history, keys[i], parts[i])
    {
      OnKeyIsPart(history, keys[i]);
    }
  }

  /** The keys in whatever order the map is ranged over. */
  method KeyList(s: set<string>) returns (keys: seq<string>)
    ensures forall k :: k in keys <==> k in s
    ensures forall i, j | 0 <= i < j < |keys| :: keys[i] != keys[j]
  {
    keys := [];
    var rest := s;
    while rest != {}
      invariant rest <= s && forall k :: k in keys <==> k in s - rest
      invariant forall i, j | 0 <= i < j < |keys| :: keys[i] != keys[j]
      decreases |rest|
    {
      var k :| k in rest;
      assert k !in keys;
      assert forall i | 0 <= i < |keys| :: keys[i] in keys;
      keys := keys + [k];
      rest := rest - {k};
    }
  }

  lemma SortedKeysDistinct(order: seq<string>, sorted: seq<string>)
    requires multiset(order) == multiset(sorted)
    requires forall i, j | 0 <= i < j < |order| :: order[i] != order[j]
    ensures forall i, j | 0 <= i < j < |sorted| :: sorted[i] != sorted[j]
  {
    forall i, j | 0 <= i < j < |sorted|
      ensures sorted[i] != sorted[j]
    {
      CountOnce(order, sorted[i]);
      if sorted[i] == sorted[j] {
        CountTwice(sorted, i, j);
      }
    }
  }

  /** The verdict on a key/value history: checking the parts of `Partition` one by one says `Ok`
      exactly when the whole history is linearizable against the store. */
  method CheckKv(history: seq<KvOperation>, verbose: bool) returns (result: CheckResult)
    requires history != [] && Complete(history)
    ensures result == Ok <==> Linearizable(Store(), history)
  {
    hide OnKey, Linearizable;
    var parts, keys := Partition(history);
    assert history[0].input.key in Keys(history);
    forall i | 0 <= i < |parts|
      ensures Complete(parts[i])
    {
      OnKeyComplete(history, keys[i]);
    }
    var info;
    result, info := CheckAll(SingleKey(), parts, verbose);
    Locality(history);
    assert forall i | 0 <= i < |keys| :: keys[i] in Keys(history);
    forall key | key in Keys(history)
      ensures OnKey(history, key) in parts
    {
      var i :| 0 <= i < |keys| && keys[i] == key;
      assert parts[i] == OnKey(history, key);
    }
  }

  lemma OnKeyComplete(ops: seq<KvOperation>, key: string)
    requires Complete(ops)
    ensures Complete(OnKey(ops, key))
  {
    var part := OnKey(ops, key);
    forall i | 0 <= i < |part|
      ensures part[i].call <= part[i].ret
    {
      OnKeyMembers(ops, key, part[i]);
    }
  }
}
