/** `checkSingle` (src/porcupine/checker.go): the backtracking search over the linked history, with
    its undo stack, its bitset and its hash-bucketed memo cache. */
module Checker {
  import opened Linearizability
  import opened Entries
  import opened DancingLinks
  import opened LinkedEntries
  import opened Search
  import opened SearchState
  import opened SearchCoverage
  import opened PartialLinearizations
  import opened MemoCache
  import Bitset

  datatype Option<T> = None | Some(value: T)

  /** An undo record: the call node taken and the state before it. */
  datatype CallsEntry<S, V> = CallsEntry(entry: Node<V>, state: S)

  // ----- the removal stack of a path

  /** The positions `lift` has removed: each call of the path followed by its return. */
  ghost function Removed<I, O>(e: seq<Entry<I, O>>, n: nat, path: seq<int>): seq<int>
    requires WellFormed(e, n)
  {
    if path == [] then []
    else Removed(e, n, Front(path)) + [Last(path)] + [if IsCall(e, Last(path)) then Mate(e, n, Last(path)) else 0]
  }

  lemma MateUnique<I, O>(e: seq<Entry<I, O>>, n: nat, c: int, k: int)
    requires WellFormed(e, n) && IsCall(e, c) && 0 < k < |e|
    ensures e[k].id == e[c].id <==> k == c || k == Mate(e, n, c)
  {
  }

  /** Exactly the nodes of linearized operations are removed. */
  lemma {:induction false} RemovedMeaning<S, I, O>(
    m: Model<S, I, O>, e: seq<Entry<I, O>>, n: nat, path: seq<int>, states: seq<S>, limit: int)
    requires WellFormed(e, n) && Frames(m, e, n, path, states, limit)
    ensures Removals(|e|, Removed(e, n, path))
    ensures forall k :: k in Removed(e, n, path) <==> 0 < k < |e| && e[k].id in Lin(e, path)
    decreases |path|
  {
    if path != [] {
      var c, rest := Last(path), Front(path);
      RemovedMeaning(m, e, n, rest, Front(states), c);
      PushRemoved(e, n, Removed(e, n, rest), Lin(e, rest), c);
    }
  }

  lemma PushRemoved<I, O>(e: seq<Entry<I, O>>, n: nat, rem: seq<int>, done: set<int>, c: int)
    requires WellFormed(e, n) && IsCall(e, c) && e[c].id !in done
    requires Removals(|e|, rem)
    requires forall k :: k in rem <==> 0 < k < |e| && e[k].id in done
    ensures Removals(|e|, rem + [c] + [Mate(e, n, c)])
    ensures forall k :: k in rem + [c] + [Mate(e, n, c)] <==> 0 < k < |e| && e[k].id in done + {e[c].id}
  {
    var r := Mate(e, n, c);
    assert c !in rem && r !in rem;
    forall k
      ensures k in rem + [c] + [r] <==> 0 < k < |e| && e[k].id in done + {e[c].id}
    {
      if 0 < k < |e| {
        MateUnique(e, n, c, k);
      }
    }
    RemovalsPush(|e|, rem, c);
    RemovalsPush(|e|, rem + [c], r);
  }

  lemma RemovalsPush(m: nat, rem: seq<int>, x: int)
    requires Removals(m, rem) && 0 < x < m && x !in rem
    ensures Removals(m, rem + [x])
  {
  }

  /** Following `next` from a remaining node leads to the next remaining position. */
  lemma NextMeaning<S, I, O>(
    m: Model<S, I, O>, e: seq<Entry<I, O>>, n: nat, path: seq<int>, states: seq<S>, limit: int, i: int)
    requires WellFormed(e, n) && Frames(m, e, n, path, states, limit)
    requires i == 0 || (0 < i < |e| && e[i].id !in Lin(e, path))
    ensures IsNext(e, Lin(e, path), i, NextOf(Removed(e, n, path), i))
  {
    hide WellFormed, Frames, NextOf;
    RemovedMeaning(m, e, n, path, states, limit);
    WellFormedSize(e, n);
    OrderKept(|e|, Removed(e, n, path), i);
  }

  lemma WellFormedSize<I, O>(e: seq<Entry<I, O>>, n: nat)
    requires WellFormed(e, n)
    ensures |e| == 2 * n + 1
  {
  }

  // ----- the undo stack

  ghost predicate Stacked<S, V>(
    calls: seq<CallsEntry<S, V>>, nodes: seq<Node<V>>, path: seq<int>, states: seq<S>)
  {
    && |calls| == |path| && |states| == |path| + 1
    && forall j | 0 <= j < |path| ::
         0 <= path[j] < |nodes| && calls[j].entry == nodes[path[j]] && calls[j].state == states[j]
  }

  ghost predicate Reported<S(!new), I, O>(
    m: Model<S, I, O>, e: seq<Entry<I, O>>, n: nat, longest: seq<Option<seq<int>>>)
    requires WellFormed(e, n)
  {
    && |longest| == n
    && forall i | 0 <= i < n && longest[i].Some? ::
         i in longest[i].value && IsPartial(m, e, n, longest[i].value)
  }

  /** The ids on the undo stack, oldest first. */
  method CallIds<S, V>(calls: seq<CallsEntry<S, V>>) returns (ids: seq<int>)
    ensures |ids| == |calls| && forall j | 0 <= j < |ids| :: ids[j] == calls[j].entry.id
  {
    ids := [];
    for i := 0 to |calls|
      invariant |ids| == i && forall j | 0 <= j < i :: ids[j] == calls[j].entry.id
    {
      ids := ids + [calls[i].entry.id];
    }
  }

  /** The `computePartial` block: the current stack becomes the answer of every operation on it
      that had none or a shorter one. */
  method RecordLongest<S, V>(calls: seq<CallsEntry<S, V>>, longest: seq<Option<seq<int>>>)
    returns (longest': seq<Option<seq<int>>>, ids: seq<int>)
    requires forall j | 0 <= j < |calls| :: 0 <= calls[j].entry.id < |longest|
    ensures |ids| == |calls| && forall j | 0 <= j < |ids| :: ids[j] == calls[j].entry.id
    ensures |longest'| == |longest|
    ensures forall i | 0 <= i < |longest| ::
              longest'[i] == if i in ids && (longest[i].None? || |ids| > |longest[i].value|)
                             then Some(ids) else longest[i]
  {
    ids := CallIds(calls);
    longest' := longest;
    for k := 0 to |calls|
      invariant |longest'| == |longest|
      invariant forall i | 0 <= i < |longest| ::
                  longest'[i] == if i in ids[..k] && (longest[i].None? || |ids| > |longest[i].value|)
                                 then Some(ids) else longest[i]
    {
      var id := calls[k].entry.id;
      assert ids[..k + 1] == ids[..k] + [id];
      if longest'[id].None? || |calls| > |longest'[id].value| {
        longest' := longest'[id := Some(ids)];
      }
    }
    assert ids[..|calls|] == ids;
  }

  // ----- the search

  /** The list, the undo stack and the bitset all show the path of the search state. */
  ghost predicate Coupled<S, I, O>(
    nodes: seq<Node<Value<I, O>>>, e: seq<Entry<I, O>>, n: nat, path: seq<int>, states: seq<S>,
    calls: seq<CallsEntry<S, Value<I, O>>>, linearized: array<bv64>)
    requires WellFormed(e, n)
    reads nodes, linearized
  {
    && Wired(nodes, Removed(e, n, path))
    && Stacked(calls, nodes, path, states)
    && Bitset.Members(linearized[..]) == Lin(e, path)
    && n <= 64 * linearized.Length
  }

  lemma RemovedPush<S, I, O>(
    m: Model<S, I, O>, e: seq<Entry<I, O>>, n: nat, path: seq<int>, states: seq<S>, limit: int, c: int)
    requires WellFormed(e, n) && Frames(m, e, n, path, states, limit)
    requires IsCall(e, c) && e[c].id !in Lin(e, path)
    ensures Removed(e, n, path + [c]) == Removed(e, n, path) + [c] + [Mate(e, n, c)]
    ensures Removals(|e|, Removed(e, n, path))
    ensures c !in Removed(e, n, path) && Mate(e, n, c) !in Removed(e, n, path)
    ensures Lin(e, path + [c]) == Lin(e, path) + {e[c].id}
    ensures 0 <= e[c].id < n
  {
    hide WellFormed, Frames, Lin, Removed, Removals;
    RemovedMeaning(m, e, n, path, states, limit);
    RemovedSnoc(e, n, path, c);
    LinSnoc(e, path, c);
    IdInRange(e, n, c);
  }

  lemma RemovedSnoc<I, O>(e: seq<Entry<I, O>>, n: nat, path: seq<int>, c: int)
    requires WellFormed(e, n) && IsCall(e, c)
    ensures Removed(e, n, path + [c]) == Removed(e, n, path) + [c] + [Mate(e, n, c)]
  {
    hide WellFormed, Mate;
    assert Front(path + [c]) == path && Last(path + [c]) == c;
  }

  lemma LinSnoc<I, O>(e: seq<Entry<I, O>>, path: seq<int>, c: int)
    requires IsCall(e, c)
    ensures Lin(e, path + [c]) == Lin(e, path) + {e[c].id}
  {
    assert Front(path + [c]) == path && Last(path + [c]) == c;
  }

  /** Takes the call at `c`: `calls` grows, the id enters the bitset, both nodes leave the list. */
  method Descend<S, I, O>(
    ghost m: Model<S, I, O>, ghost e: seq<Entry<I, O>>, ghost n: nat, ghost nodes: seq<Node<Value<I, O>>>,
    ghost path: seq<int>, ghost states: seq<S>, ghost c: int,
    entry: Node<Value<I, O>>, state: S, ghost newState: S, calls: seq<CallsEntry<S, Value<I, O>>>,
    linearized: array<bv64>) returns (calls': seq<CallsEntry<S, Value<I, O>>>)
    requires WellFormed(e, n) && Distinct(nodes) && Mates(nodes, e, n)
    requires Frames(m, e, n, path, states, c) && Coupled(nodes, e, n, path, states, calls, linearized)
    requires IsCall(e, c) && e[c].id !in Lin(e, path) && nodes[c] == entry && |states| == |path| + 1 && state == Last(states)
    modifies nodes, linearized
    ensures Coupled(nodes, e, n, path + [c], states + [newState], calls', linearized)
  {
    hide NextOf, PrevOf, WellFormed, Frames, Wired, Distinct, Removed, Lin, Bitset.Members;
    RemovedPush(m, e, n, path, states, c, c);
    calls' := calls + [CallsEntry(entry, state)];
    Bitset.Set(linearized, entry.id);
    Lift(entry, nodes, Removed(e, n, path), c, Mate(e, n, c));
  }

  lemma TopOfFrames<S, I, O>(
    m: Model<S, I, O>, e: seq<Entry<I, O>>, n: nat, path: seq<int>, states: seq<S>, limit: int)
    requires WellFormed(e, n) && Frames(m, e, n, path, states, limit) && path != []
    ensures IsCall(e, Last(path)) && e[Last(path)].id !in Lin(e, Front(path))
    ensures |states| == |path| + 1 && Frames(m, e, n, Front(path), Front(states), Last(path))
  {
  }

  /** Undoes the latest call: the id leaves the bitset, both nodes return to the list. */
  method Ascend<S, I, O>(
    ghost m: Model<S, I, O>, ghost e: seq<Entry<I, O>>, ghost n: nat, ghost nodes: seq<Node<Value<I, O>>>,
    ghost path: seq<int>, ghost states: seq<S>, ghost limit: int,
    calls: seq<CallsEntry<S, Value<I, O>>>, linearized: array<bv64>)
    returns (entry: Node<Value<I, O>>, state: S, calls': seq<CallsEntry<S, Value<I, O>>>)
    requires WellFormed(e, n) && Distinct(nodes) && Mates(nodes, e, n)
    requires Frames(m, e, n, path, states, limit) && Coupled(nodes, e, n, path, states, calls, linearized)
    requires path != [] && |states| == |path| + 1
    modifies nodes, linearized
    ensures Coupled(nodes, e, n, Front(path), Front(states), calls', linearized)
    ensures 0 <= Last(path) < |nodes| && entry == nodes[Last(path)] && state == Last(Front(states))
  {
    hide NextOf, PrevOf, WellFormed, Frames, Wired, Distinct, Removed, Lin, Bitset.Members;
    ghost var c, rest := Last(path), Front(path);
    TopOfFrames(m, e, n, path, states, limit);
    RemovedPush(m, e, n, rest, Front(states), c, c);
    assert path == rest + [c];
    var callsTop := calls[|calls| - 1];
    entry, state := callsTop.entry, callsTop.state;
    Bitset.Clear(linearized, entry.id);
    calls' := calls[..|calls| - 1];
    Unlift(entry, nodes, Removed(e, n, rest), c, Mate(e, n, c));
    assert Lin(e, rest) + {e[c].id} - {e[c].id} == Lin(e, rest);
  }

  /** The ids on the stack form a partial linearization of exactly the linearized operations. */
  lemma StackIsPartial<S(!new), I, O>(
    m: Model<S, I, O>, e: seq<Entry<I, O>>, n: nat, nodes: seq<Node<Value<I, O>>>,
    path: seq<int>, states: seq<S>, limit: int, calls: seq<CallsEntry<S, Value<I, O>>>, ids: seq<int>)
    requires WellFormed(e, n) && Mates(nodes, e, n) && Stacked(calls, nodes, path, states)
    requires Frames(m, e, n, path, states, limit)
    requires |ids| == |calls| && forall j | 0 <= j < |ids| :: ids[j] == calls[j].entry.id
    ensures IsPartial(m, e, n, ids)
    ensures forall id :: id in ids <==> id in Lin(e, path)
    ensures forall id | id in ids :: 0 <= id < n
  {
    assert ids == IdsOf(e, path);
    hide WellFormed, Frames, Mates, Stacked, IdsOf, Lin;
    LinIsIds(m, e, n, path, states, limit);
    PathSize(m, e, n, path, states, limit);
  }

  lemma ReportedUpdate<S(!new), I, O>(
    m: Model<S, I, O>, e: seq<Entry<I, O>>, n: nat, longest: seq<Option<seq<int>>>,
    longest': seq<Option<seq<int>>>, ids: seq<int>)
    requires WellFormed(e, n) && Reported(m, e, n, longest) && IsPartial(m, e, n, ids) && |longest'| == n
    requires forall i | 0 <= i < n :: longest'[i] == longest[i] || (longest'[i] == Some(ids) && i in ids)
    ensures Reported(m, e, n, longest')
  {
  }

  /** What the invariant says about the list head: it runs out exactly when all is linearized. */
  lemma HeadMeaning<S, I, O>(
    m: Model<S, I, O>, e: seq<Entry<I, O>>, n: nat, st: State<S>, nodes: seq<Node<Value<I, O>>>)
    requires Inv(m, e, n, st) && |nodes| == |e| && Wired(nodes, Removed(e, n, st.path))
    requires st.pos == |e| ==> IsNext(e, Lin(e, st.path), 0, |e|)
    ensures nodes[0].next != null ==> st.pos < |e|
    ensures nodes[0].next == null ==> CanFinish(m, e, n, {}, m.init) && Ids(n) <= Lin(e, st.path)
  {
    hide NextOf, PrevOf, Removed, Memo, Lin;
    NextMeaning(m, e, n, st.path, st.states, st.pos, 0);
    if nodes[0].next == null {
      EmptyListMeansAll(e, n, Lin(e, st.path));
      FullPathFinishes(m, e, n, st.path, st.states, st.pos);
    }
  }

  /** Where `entry.next` leads from a remaining node. */
  lemma NextNode<S, I, O>(
    m: Model<S, I, O>, e: seq<Entry<I, O>>, n: nat, path: seq<int>, states: seq<S>, limit: int,
    nodes: seq<Node<Value<I, O>>>, i: int) returns (p: int)
    requires WellFormed(e, n) && Frames(m, e, n, path, states, limit)
    requires |nodes| == |e| && Wired(nodes, Removed(e, n, path))
    requires i == 0 || (0 < i < |e| && e[i].id !in Lin(e, path))
    ensures IsNext(e, Lin(e, path), i, p)
    ensures nodes[i].next == At(nodes, p)
  {
    hide NextOf, PrevOf, Removed, Lin, Frames;
    p := NextOf(Removed(e, n, path), i);
    NextMeaning(m, e, n, path, states, limit, i);
  }

  lemma FewerUnseen<T>(universe: set<T>, seen: set<T>, c: T)
    requires c in universe && c !in seen
    ensures |universe - (seen + {c})| < |universe - seen|
  {
    assert universe - (seen + {c}) == (universe - seen) - {c};
  }

  lemma InvParts<S, I, O>(m: Model<S, I, O>, e: seq<Entry<I, O>>, n: nat, st: State<S>)
    requires Inv(m, e, n, st)
    ensures WellFormed(e, n) && Frames(m, e, n, st.path, st.states, st.pos)
    ensures |st.states| == |st.path| + 1 && 0 < st.pos <= |e|
    ensures st.pos < |e| ==> e[st.pos].id !in Lin(e, st.path) && 0 <= e[st.pos].id < n
  {
  }

  /** Which kind of node the search is looking at. */
  lemma NodeKind<I, O>(nodes: seq<Node<Value<I, O>>>, e: seq<Entry<I, O>>, n: nat, p: int)
    requires WellFormed(e, n) && Mates(nodes, e, n) && 0 < p < |e|
    ensures nodes[p].mate == null <==> IsReturn(e, p)
    ensures nodes[p].id == e[p].id
    ensures IsCall(e, p) ==>
              && nodes[p].mate != null && nodes[p].mate == nodes[Mate(e, n, p)]
              && nodes[p].value == e[p].value && nodes[p].value.In?
              && nodes[p].mate.value == e[Mate(e, n, p)].value && nodes[p].mate.value.Out?
  {
  }

  /** Everything the search loop maintains. */
  ghost predicate Searching<S, I, O>(
    m: Model<S, I, O>, e: seq<Entry<I, O>>, n: nat, st: State<S>, nodes: seq<Node<Value<I, O>>>,
    entry: Node?<Value<I, O>>, state: S, calls: seq<CallsEntry<S, Value<I, O>>>,
    linearized: array<bv64>, cache: Cache<S>)
    reads nodes, linearized, Arrays(cache)
  {
    && Inv(m, e, n, st) && |nodes| == |e| && Distinct(nodes) && Mates(nodes, e, n)
    && Coupled(nodes, e, n, st.path, st.states, calls, linearized)
    && Caches(cache, st.seen, linearized.Length) && linearized !in Arrays(cache)
    && |st.states| == |st.path| + 1 && state == Last(st.states)
    && if st.pos < |e| then entry == nodes[st.pos] else IsNext(e, Lin(e, st.path), 0, |e|)
  }

  /** `makeLinkedEntries`, its length, and the head in front of it. */
  method LinkHistory<I, O>(history: seq<Entry<I, O>>, ghost n: nat)
    returns (headEntry: Node<Value<I, O>>, entry: Node?<Value<I, O>>, count: nat,
             ghost nodes: seq<Node<Value<I, O>>>)
    requires WellFormed(Rooted(history), n)
    ensures count == n && fresh(nodes) && |nodes| == 2 * n + 1 && nodes[0] == headEntry
    ensures Distinct(nodes) && Mates(nodes, Rooted(history), n) && Wired(nodes, [])
    ensures entry == At(nodes, 1)
  {
    hide WellFormed, Carries, CallsFirst, Mates, Chained, Distinct, Wired;
    RootedCallsFirst(history, n);
    ghost var tail: seq<Node<Value<I, O>>>;
    entry, tail := MakeLinkedEntries(history);
    var len := Length(entry, tail);
    count := len / 2;
    WellFormedSize(Rooted(history), n);
    CarriesSize(tail, history);
    headEntry := AddHead(entry, tail);
    nodes := [headEntry] + tail;
    RootedMates(headEntry, tail, history, n);
    ChainedWired(nodes);
  }

  lemma InitiallySearching<S, I, O>(
    m: Model<S, I, O>, e: seq<Entry<I, O>>, n: nat, nodes: seq<Node<Value<I, O>>>, linearized: array<bv64>)
    requires WellFormed(e, n) && |nodes| == |e|
    requires Distinct(nodes) && Mates(nodes, e, n) && Wired(nodes, [])
    requires Bitset.Members(linearized[..]) == {} && n <= 64 * linearized.Length
    ensures Searching(m, e, n, State([], [m.init], {}, 1), nodes, At(nodes, 1), m.init, [], linearized, map[])
  {
    hide WellFormed, Inv, Mates, Caches, Bitset.Members, IsNext, Wired, Distinct;
    InitiallyInv(m, e, n);
    InvParts(m, e, n, State([], [m.init], {}, 1));
    EmptyCaches<S>(linearized.Length);
    if |e| == 1 {
      EmptyIsNext(e);
    }
  }

  lemma CarriesSize<I, O>(nodes: seq<Node<Value<I, O>>>, h: seq<Entry<I, O>>)
    requires Carries(nodes, h)
    ensures |nodes| == |h|
  {
  }

  lemma EmptyIsNext<I, O>(e: seq<Entry<I, O>>)
    requires |e| == 1
    ensures IsNext(e, {}, 0, 1)
  {
  }

  lemma StackedSize<S, V>(
    calls: seq<CallsEntry<S, V>>, nodes: seq<Node<V>>, path: seq<int>, states: seq<S>)
    requires Stacked(calls, nodes, path, states)
    ensures |calls| == |path| && |states| == |path| + 1
  {
  }

  lemma IsNextBound<I, O>(e: seq<Entry<I, O>>, done: set<int>, i: int, p: int)
    requires IsNext(e, done, i, p)
    ensures i < p <= |e|
  {
  }

  /** The next remaining node, after the latest call was pushed. */
  lemma Pushed<S, I, O>(
    m: Model<S, I, O>, e: seq<Entry<I, O>>, n: nat, st: State<S>, s': S, nodes: seq<Node<Value<I, O>>>)
    returns (st': State<S>)
    requires WellFormed(e, n) && Inv(m, e, n, st) && IsCall(e, st.pos) && 0 < st.pos < |e|
    requires |st.states| == |st.path| + 1
    requires StepAt(m, e, n, st.pos, Last(st.states)) == (true, s')
    requires (Lin(e, st.path) + {e[st.pos].id}, s') !in st.seen && Covering(m, e, n, st)
    requires |nodes| == |e| && Wired(nodes, Removed(e, n, st.path + [st.pos]))
    ensures Inv(m, e, n, st')
    ensures st'.path == st.path + [st.pos] && st'.states == st.states + [s']
    ensures st'.seen == st.seen + {(Lin(e, st.path) + {e[st.pos].id}, s')}
    ensures nodes[0].next == At(nodes, st'.pos) && 0 < st'.pos <= |e|
    ensures st'.pos == |e| ==> IsNext(e, Lin(e, st'.path), 0, |e|)
    ensures |Universe(m, e, n) - st'.seen| < |Universe(m, e, n) - st.seen|
    ensures Covering(m, e, n, st') && Left(e, st') == Left(e, st)
  {
    hide *;
    StackSeen(m, e, n, st);
    var c := (Lin(e, st.path) + {e[st.pos].id}, s');
    PushFrames(m, e, n, st, s');
    var p := NextNode(m, e, n, st.path + [st.pos], st.states + [s'], 0, nodes, 0);
    PushKeeps(m, e, n, st, s', p);
    FewerUnseen(Universe(m, e, n), st.seen, c);
    IsNextBound(e, c.0, 0, p);
    st' := State(st.path + [st.pos], st.states + [s'], st.seen + {c}, p);
    PushCovers(m, e, n, st, st', c);
  }

  /** What is on the stack is in the cache. */
  lemma StackSeen<S, I, O>(m: Model<S, I, O>, e: seq<Entry<I, O>>, n: nat, st: State<S>)
    requires Inv(m, e, n, st)
    ensures |st.states| == |st.path| + 1 && PathConfigs(e, st.path, st.states) <= st.seen
  {
  }

  /** The next remaining node, after the latest call was popped. */
  lemma Popped<S, I, O>(
    m: Model<S, I, O>, e: seq<Entry<I, O>>, n: nat, st: State<S>, nodes: seq<Node<Value<I, O>>>)
    returns (st': State<S>)
    requires WellFormed(e, n) && Inv(m, e, n, st) && IsReturn(e, st.pos)
    requires st.path != [] && |st.states| == |st.path| + 1 && 0 <= Last(st.path) < |e|
    requires |nodes| == |e| && Wired(nodes, Removed(e, n, Front(st.path))) && Covering(m, e, n, st)
    ensures Inv(m, e, n, st')
    ensures st'.path == Front(st.path) && st'.states == Front(st.states) && st'.seen == st.seen
    ensures Covering(m, e, n, st') && Left(e, st') <= Left(e, st) + {(Lin(e, st.path), Last(st.states))}
    ensures nodes[Last(st.path)].next == At(nodes, st'.pos) && 0 < st'.pos < |e|
  {
    InvParts(m, e, n, st);
    TopOfFrames(m, e, n, st.path, st.states, st.pos);
    hide *;
    var path, states, c := Front(st.path), Front(st.states), Last(st.path);
    var p := NextNode(m, e, n, path, states, c, nodes, c);
    PopKeeps(m, e, n, st, p);
    IsNextBound(e, Lin(e, path), c, p);
    StackSeen(m, e, n, st);
    st' := State(path, states, st.seen, p);
    PopCovers(m, e, n, st, st');
  }

  /** One iteration at a call node: take the call if the model allows it and its outcome is new,
      otherwise move on. */
  method TryCall<S(==), I, O>(
    m: Model<S, I, O>, ghost e: seq<Entry<I, O>>, ghost n: nat, ghost st: State<S>,
    ghost nodes: seq<Node<Value<I, O>>>, headEntry: Node<Value<I, O>>, entry: Node<Value<I, O>>, state: S,
    calls: seq<CallsEntry<S, Value<I, O>>>, linearized: array<bv64>, cache: Cache<S>)
    returns (entry': Node?<Value<I, O>>, state': S, calls': seq<CallsEntry<S, Value<I, O>>>, cache': Cache<S>,
             ghost st': State<S>)
    requires WellFormed(e, n) && Searching(m, e, n, st, nodes, entry, state, calls, linearized, cache)
    requires 0 < st.pos < |e| && IsCall(e, st.pos) && |nodes| == |e| && headEntry == nodes[0]
    requires |st.states| == |st.path| + 1 && Covering(m, e, n, st)
    modifies nodes, linearized
    ensures Searching(m, e, n, st', nodes, entry', state', calls', linearized, cache')
    ensures |st'.states| == |st'.path| + 1 && Covering(m, e, n, st') && Left(e, st') == Left(e, st)
    ensures || |Universe(m, e, n) - st'.seen| < |Universe(m, e, n) - st.seen|
            || (st'.seen == st.seen && st'.path == st.path && st'.pos > st.pos)
  {
    hide NextOf, PrevOf, WellFormed, Frames, Wired, Distinct, Removed, Lin, Bitset.Members, Inv,
      Caches, Arrays, Mates, CanFinish, Universe, Stacked, IsNext, Covering, Left;
    InvParts(m, e, n, st);
    NodeKind(nodes, e, n, st.pos);
    var matching := entry.mate;
    var (ok, newState) := m.step(state, entry.value.input, matching.value.output);
    assert (ok, newState) == StepAt(m, e, n, st.pos, Last(st.states));
    var isNew := false;
    cache' := cache;
    if ok {
      isNew, cache' := Remember(cache, linearized, entry.id, newState, st.seen);
    }
    ArraysAllocated(cache');
    if isNew {
      calls' := Descend(m, e, n, nodes, st.path, st.states, st.pos, entry, state, newState, calls, linearized);
      state' := newState;
      entry' := headEntry.next;
      st' := Pushed(m, e, n, st, newState, nodes);
    } else {
      calls', state' := calls, state;
      entry' := entry.next;
      ghost var p := NextNode(m, e, n, st.path, st.states, st.pos, nodes, st.pos);
      assert ok ==> st.seen + {(Lin(e, st.path) + {e[st.pos].id}, newState)} == st.seen;
      AdvanceKeeps(m, e, n, st, p);
      AdvanceCovers(m, e, n, st, p);
      st' := st.(pos := p);
      IsNextBound(e, Lin(e, st.path), st.pos, p);
    }
  }

  /** One iteration at a return node with a non-empty stack: undo the latest call and move past it. */
  method Backtrack<S, I, O>(
    ghost m: Model<S, I, O>, ghost e: seq<Entry<I, O>>, ghost n: nat, ghost st: State<S>,
    ghost nodes: seq<Node<Value<I, O>>>, ghost entry: Node?<Value<I, O>>, ghost state: S,
    calls: seq<CallsEntry<S, Value<I, O>>>, linearized: array<bv64>, ghost cache: Cache<S>)
    returns (entry': Node?<Value<I, O>>, state': S, calls': seq<CallsEntry<S, Value<I, O>>>, ghost st': State<S>)
    requires WellFormed(e, n) && Searching(m, e, n, st, nodes, entry, state, calls, linearized, cache)
    requires IsReturn(e, st.pos) && calls != [] && |st.states| == |st.path| + 1 && Covering(m, e, n, st)
    modifies nodes, linearized
    ensures Searching(m, e, n, st', nodes, entry', state', calls', linearized, cache)
    ensures |st'.states| == |st'.path| + 1 && Covering(m, e, n, st')
    ensures Left(e, st') <= Left(e, st) + {(Lin(e, st.path), Last(st.states))}
    ensures st'.seen == st.seen && |st'.path| < |st.path|
  {
    hide NextOf, PrevOf, WellFormed, Frames, Wired, Distinct, Removed, Lin, Bitset.Members, Inv,
      Caches, Arrays, Mates, CanFinish, Stacked, IsNext, Covering, Left;
    ArraysAllocated(cache);
    InvParts(m, e, n, st);
    StackedSize(calls, nodes, st.path, st.states);
    var top: Node<Value<I, O>>;
    top, state', calls' := Ascend(m, e, n, nodes, st.path, st.states, st.pos, calls, linearized);
    entry' := top.next;
    st' := Popped(m, e, n, st, nodes);
  }

  lemma SearchingParts<S, I, O>(
    m: Model<S, I, O>, e: seq<Entry<I, O>>, n: nat, st: State<S>, nodes: seq<Node<Value<I, O>>>,
    entry: Node?<Value<I, O>>, state: S, calls: seq<CallsEntry<S, Value<I, O>>>,
    linearized: array<bv64>, cache: Cache<S>)
    requires WellFormed(e, n) && Searching(m, e, n, st, nodes, entry, state, calls, linearized, cache)
    ensures Inv(m, e, n, st) && |nodes| == |e| && |e| > 0 && Mates(nodes, e, n)
    ensures Stacked(calls, nodes, st.path, st.states) && Frames(m, e, n, st.path, st.states, st.pos)
    ensures nodes[0].next == null ==> CanFinish(m, e, n, {}, m.init) && Ids(n) <= Lin(e, st.path)
    ensures nodes[0].next != null ==>
              && 0 < st.pos < |e| && entry == nodes[st.pos] && entry != null
              && (entry.mate == null <==> IsReturn(e, st.pos))
              && (entry.mate != null <==> IsCall(e, st.pos))
  {
    hide NextOf, PrevOf, WellFormed, Frames, Wired, Distinct, Removed, Lin, Bitset.Members, Inv,
      Caches, Arrays, Mates, CanFinish, Stacked, IsNext;
    InvParts(m, e, n, st);
    HeadMeaning(m, e, n, st, nodes);
    if nodes[0].next != null {
      NodeKind(nodes, e, n, st.pos);
    }
  }

  lemma NothingTaken<S, I, O>(m: Model<S, I, O>, e: seq<Entry<I, O>>, n: nat, st: State<S>)
    requires Inv(m, e, n, st) && WellFormed(e, n) && IsReturn(e, st.pos) && st.path == []
    ensures !CanFinish(m, e, n, {}, m.init)
  {
    DeadEnd(m, e, n, st);
  }

  /** The answer of every operation when the whole history is linearized. */
  lemma ReportedAll<S(!new), I, O>(
    m: Model<S, I, O>, e: seq<Entry<I, O>>, n: nat, nodes: seq<Node<Value<I, O>>>,
    path: seq<int>, states: seq<S>, limit: int, calls: seq<CallsEntry<S, Value<I, O>>>, ids: seq<int>)
    requires WellFormed(e, n) && Mates(nodes, e, n) && Stacked(calls, nodes, path, states)
    requires Frames(m, e, n, path, states, limit) && Ids(n) <= Lin(e, path)
    requires |ids| == |calls| && forall j | 0 <= j < |ids| :: ids[j] == calls[j].entry.id
    ensures Reported(m, e, n, seq(n, _ => Some(ids))) && |ids| == n
  {
    hide WellFormed, Frames, Mates, Stacked, Lin, IsPartial;
    StackIsPartial(m, e, n, nodes, path, states, limit, calls, ids);
    PathSize(m, e, n, path, states, limit);
    StackedSize(calls, nodes, path, states);
    assert Lin(e, path) == Ids(n);
    IdsSize(n);
  }

  lemma NothingCredited<S>(longest: seq<Option<seq<int>>>)
    ensures Credited<S>({}, longest)
  {
  }

  lemma ReportedNone<S(!new), I, O>(m: Model<S, I, O>, e: seq<Entry<I, O>>, n: nat)
    requires WellFormed(e, n)
    ensures Reported(m, e, n, seq(n, _ => None))
  {
  }

  /** Every operation of a set has an answer at least as long as the set is large. */
  ghost predicate Answered(done: set<int>, longest: seq<Option<seq<int>>>) {
    forall i | i in done :: 0 <= i < |longest| && longest[i].Some? && |longest[i].value| >= |done|
  }

  ghost predicate Credited<S>(left: set<Config<S>>, longest: seq<Option<seq<int>>>) {
    forall c | c in left :: Answered(c.0, longest)
  }

  /** No partial linearization that contains an operation is longer than its answer. */
  ghost predicate Longest<S(!new), I, O>(
    m: Model<S, I, O>, e: seq<Entry<I, O>>, n: nat, longest: seq<Option<seq<int>>>)
    requires WellFormed(e, n)
  {
    forall ids, i | IsPartial(m, e, n, ids) && i in ids ::
      0 <= i < |longest| && longest[i].Some? && |longest[i].value| >= |ids|
  }

  /** No answer got lost or shorter, and every operation on the stack has one at least as long. */
  ghost predicate Improves(longest: seq<Option<seq<int>>>, longest': seq<Option<seq<int>>>, done: set<int>) {
    && |longest'| == |longest|
    && (forall i | 0 <= i < |longest| && longest[i].Some? ::
          longest'[i].Some? && |longest'[i].value| >= |longest[i].value|)
    && Answered(done, longest')
  }

  lemma CreditedMore<S>(
    left: set<Config<S>>, left': set<Config<S>>, c: Config<S>, longest: seq<Option<seq<int>>>, longest': seq<Option<seq<int>>>)
    requires Credited(left, longest) && left' <= left + {c} && Improves(longest, longest', c.0)
    ensures Credited(left', longest')
  {
    forall x | x in left'
      ensures Answered(x.0, longest')
    {
      assert x in left + {c};
      if x in left {
        assert Answered(x.0, longest);
      }
    }
  }

  /** When the search runs dry the answers are the longest there are. */
  lemma DryMeansLongest<S(!new), I, O>(
    m: Model<S, I, O>, e: seq<Entry<I, O>>, n: nat, st: State<S>, longest: seq<Option<seq<int>>>)
    requires WellFormed(e, n) && |st.states| == |st.path| + 1 && Covering(m, e, n, st) && Credited(Left(e, st), longest)
    requires Frames(m, e, n, st.path, st.states, st.pos) && st.path == [] && IsReturn(e, st.pos)
    ensures Longest(m, e, n, longest)
  {
    assert st.states == [m.init];
    hide WellFormed, Frames, Covering, Left, Lin, IdsOf, Explored;
    RunsDry(m, e, n, st);
    forall ids, i | IsPartial(m, e, n, ids) && i in ids
      ensures 0 <= i < |longest| && longest[i].Some? && |longest[i].value| >= |ids|
    {
      var path: seq<int>, states: seq<S>, limit: int :| Frames(m, e, n, path, states, limit) && ids == IdsOf(e, path);
      IdsSizes(e, path);
      AllLeft(m, e, n, st.seen, path, states, limit);
      LinIsIds(m, e, n, path, states, limit);
      PathSize(m, e, n, path, states, limit);
    }
  }

  lemma IdsSizes<I, O>(e: seq<Entry<I, O>>, path: seq<int>)
    ensures |IdsOf(e, path)| == |path|
  {
  }

  /** `checkSingle` with `kill` never set: the search answers exactly, with the memo cache in place,
      and stores partial linearizations only; when it fails, the longest ones for every operation, if
      they were asked for. */
  method CheckSingle<S(==, !new), I, O>(
    model: Model<S, I, O>, history: seq<Entry<I, O>>, computePartial: bool, ghost n: nat)
    returns (ok: bool, longest: seq<Option<seq<int>>>)
    requires WellFormed(Rooted(history), n)
    ensures ok <==> CanFinish(model, Rooted(history), n, {}, model.init)
    ensures Reported(model, Rooted(history), n, longest)
    ensures ok ==> forall i | 0 <= i < |longest| :: longest[i].Some? && |longest[i].value| == n
    ensures !ok && computePartial ==> Longest(model, Rooted(history), n, longest)
    ensures !ok && !computePartial ==> forall i | 0 <= i < |longest| :: longest[i].None?
  {
    hide NextOf, PrevOf, WellFormed, Frames, Wired, Distinct, Removed, Lin, Bitset.Members, Inv, Searching,
      Caches, Arrays, IsNext, Mates, CanFinish, Universe, Reported, StepAt, Stacked, IsPartial, Rooted,
      Covering, Left, Credited, Improves, Longest;
    ghost var e := Rooted(history);
    ghost var nodes;
    var headEntry, entry, count;
    headEntry, entry, count, nodes := LinkHistory(history, n);
    var linearized := Bitset.NewBitset(count);
    var cache: Cache<S> := map[];
    var calls: seq<CallsEntry<S, Value<I, O>>> := [];
    longest := seq(count, _ => None);
    var state := model.init;
    ghost var st := State([], [state], {}, 1);
    WellFormedSize(e, n);
    InitiallySearching(model, e, n, nodes, linearized);
    ReportedNone(model, e, n);
    CoveringInitially(model, e, n);
    NothingCredited<S>(longest);
    while headEntry.next != null
      invariant Searching(model, e, n, st, nodes, entry, state, calls, linearized, cache)
      invariant Reported(model, e, n, longest)
      invariant |st.states| == |st.path| + 1 && Covering(model, e, n, st)
      invariant computePartial ==> Credited(Left(e, st), longest)
      invariant !computePartial ==> forall i | 0 <= i < |longest| :: longest[i].None?
      decreases |Universe(model, e, n) - st.seen|, |st.path|, |e| - st.pos
    {
      SearchingParts(model, e, n, st, nodes, entry, state, calls, linearized, cache);
      StackedSize(calls, nodes, st.path, st.states);
      if entry.mate != null {
        entry, state, calls, cache, st :=
          TryCall(model, e, n, st, nodes, headEntry, entry, state, calls, linearized, cache);
      } else {
        if |calls| == 0 {
          NothingTaken(model, e, n, st);
          if computePartial {
            DryMeansLongest(model, e, n, st, longest);
          }
          return false, longest;
        }
        ArraysAllocated(cache);
        ghost var was, before := longest, st;
        if computePartial {
          longest := Report(model, e, n, st, nodes, calls, longest);
        }
        entry, state, calls, st := Backtrack(model, e, n, st, nodes, entry, state, calls, linearized, cache);
        if computePartial {
          CreditedMore(Left(e, before), Left(e, st), (Lin(e, before.path), Last(before.states)), was, longest);
        }
      }
    }
    SearchingParts(model, e, n, st, nodes, entry, state, calls, linearized, cache);
    var all := CallIds(calls);
    ReportedAll(model, e, n, nodes, st.path, st.states, st.pos, calls, all);
    longest := seq(count, _ => Some(all));
    return true, longest;
  }

  /** Recording the stack keeps every stored answer a partial linearization. */
  method Report<S(!new), I, O>(
    ghost m: Model<S, I, O>, ghost e: seq<Entry<I, O>>, ghost n: nat, ghost st: State<S>,
    ghost nodes: seq<Node<Value<I, O>>>, calls: seq<CallsEntry<S, Value<I, O>>>, longest: seq<Option<seq<int>>>)
    returns (longest': seq<Option<seq<int>>>)
    requires WellFormed(e, n) && Mates(nodes, e, n) && Stacked(calls, nodes, st.path, st.states)
    requires Frames(m, e, n, st.path, st.states, st.pos) && Reported(m, e, n, longest)
    ensures Reported(m, e, n, longest') && Improves(longest, longest', Lin(e, st.path))
  {
    hide WellFormed, Frames, Mates, Stacked, Lin, IsPartial;
    PathSize(m, e, n, st.path, st.states, st.pos);
    StackedSize(calls, nodes, st.path, st.states);
    ghost var stack := seq(|calls|, j requires 0 <= j < |calls| => calls[j].entry.id);
    StackIsPartial(m, e, n, nodes, st.path, st.states, st.pos, calls, stack);
    assert forall j | 0 <= j < |calls| :: stack[j] == calls[j].entry.id && stack[j] in stack;
    var ids;
    longest', ids := RecordLongest(calls, longest);
    assert ids == stack;
    ReportedUpdate(m, e, n, longest, longest', ids);
  }
}
