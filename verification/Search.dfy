/** The search space of `checkSingle` (src/porcupine/checker.go) and the invariant of its
    memoized depth-first search, on values. */
module Search {
  import opened Linearizability
  import opened Entries

  // ----- the list, by position: 0 is the head, the history follows

  function Head<I, O>(): Entry<I, O> {
    Entry(ReturnEntry, Nil, -1, 0, 0)
  }

  function Rooted<I, O>(h: seq<Entry<I, O>>): seq<Entry<I, O>> {
    [Head()] + h
  }

  predicate IsCall<I, O>(e: seq<Entry<I, O>>, p: int) {
    0 < p < |e| && e[p].kind.CallEntry?
  }

  predicate IsReturn<I, O>(e: seq<Entry<I, O>>, p: int) {
    0 < p < |e| && e[p].kind.ReturnEntry?
  }

  /** Every id 0..n-1 has one call and one later return. */
  ghost predicate WellFormed<I, O>(e: seq<Entry<I, O>>, n: nat) {
    && |e| == 2 * n + 1 && e[0] == Head()
    && (forall p | 0 < p < |e| ::
          0 <= e[p].id < n && (if e[p].kind.CallEntry? then e[p].value.In? else e[p].value.Out?))
    && (forall p, q | 0 < p < q < |e| && e[p].id == e[q].id :: IsCall(e, p) && IsReturn(e, q))
    && (forall id | 0 <= id < n :: HasCall(e, id) && HasReturn(e, id))
  }

  ghost predicate HasCall<I, O>(e: seq<Entry<I, O>>, id: int) {
    exists p :: IsCall(e, p) && e[p].id == id
  }

  ghost predicate HasReturn<I, O>(e: seq<Entry<I, O>>, id: int) {
    exists p :: IsReturn(e, p) && e[p].id == id
  }

  /** The return position of the call at `c`. */
  ghost function Mate<I, O>(e: seq<Entry<I, O>>, n: nat, c: int): (r: int)
    requires WellFormed(e, n) && IsCall(e, c)
    ensures c < r && IsReturn(e, r) && e[r].id == e[c].id
  {
    assert HasReturn(e, e[c].id);
    var r :| IsReturn(e, r) && e[r].id == e[c].id;
    r
  }

  ghost function Ids(n: nat): (ids: set<int>)
    ensures forall id :: id in ids <==> 0 <= id < n
  {
    if n == 0 then {} else Ids(n - 1) + {n - 1}
  }

  lemma IdInRange<I, O>(e: seq<Entry<I, O>>, n: nat, p: int)
    requires WellFormed(e, n) && 0 < p < |e|
    ensures e[p].id in Ids(n)
  {
  }

  // ----- configurations

  /** A call that may be linearized next: no remaining return comes before it. */
  ghost predicate Candidate<I, O>(e: seq<Entry<I, O>>, done: set<int>, c: int) {
    && IsCall(e, c) && e[c].id !in done
    && forall k | 0 < k < c && e[k].id !in done :: e[k].kind.CallEntry?
  }

  ghost function StepAt<S, I, O>(m: Model<S, I, O>, e: seq<Entry<I, O>>, n: nat, c: int, s: S): (bool, S)
    requires WellFormed(e, n) && IsCall(e, c)
  {
    m.step(s, e[c].value.input, e[Mate(e, n, c)].value.output)
  }

  /** All operations outside `done` can still be linearized from state `s`. */
  ghost predicate CanFinish<S, I, O>(m: Model<S, I, O>, e: seq<Entry<I, O>>, n: nat, done: set<int>, s: S)
    requires WellFormed(e, n)
    decreases Ids(n) - done
  {
    Ids(n) <= done || exists c :: CanFinishBy(m, e, n, done, s, c)
  }

  ghost predicate CanFinishBy<S, I, O>(
    m: Model<S, I, O>, e: seq<Entry<I, O>>, n: nat, done: set<int>, s: S, c: int)
    requires WellFormed(e, n)
    decreases Ids(n) - done, 0
  {
    Candidate(e, done, c) &&
    assert e[c].id in Ids(n) - done;
    var (ok, s') := StepAt(m, e, n, c, s);
    ok && CanFinish(m, e, n, done + {e[c].id}, s')
  }

  // ----- the search meets its meaning

  /** The operations whose ids are below `k` and not in `done`. */
  ghost function Remaining<I, O>(ops: seq<Operation<I, O>>, done: set<int>, k: nat): multiset<Operation<I, O>>
    requires k <= |ops|
  {
    if k == 0 then multiset{}
    else Remaining(ops, done, k - 1) + if k - 1 in done then multiset{} else multiset{ops[k - 1]}
  }

  lemma {:induction false} RemainingAll<I, O>(ops: seq<Operation<I, O>>, k: nat)
    requires k <= |ops|
    ensures Remaining(ops, {}, k) == multiset(ops[..k])
  {
    if k > 0 {
      RemainingAll(ops, k - 1);
      assert ops[..k] == ops[..k - 1] + [ops[k - 1]];
    }
  }

  lemma {:induction false} RemainingMembers<I, O>(ops: seq<Operation<I, O>>, done: set<int>, k: nat)
    requires k <= |ops|
    ensures forall i | 0 <= i < k && i !in done :: ops[i] in Remaining(ops, done, k)
    ensures forall x | x in Remaining(ops, done, k) :: exists i :: 0 <= i < k && i !in done && ops[i] == x
  {
    if k > 0 {
      RemainingMembers(ops, done, k - 1);
    }
  }

  lemma {:induction false} RemainingSame<I, O>(ops: seq<Operation<I, O>>, done: set<int>, k: nat, i: int)
    requires k <= |ops| && i >= k
    ensures Remaining(ops, done, k) == Remaining(ops, done + {i}, k)
  {
    if k > 0 {
      RemainingSame(ops, done, k - 1, i);
    }
  }

  lemma {:induction false} RemainingRemove<I, O>(ops: seq<Operation<I, O>>, done: set<int>, k: nat, i: int)
    requires 0 <= i < k <= |ops| && i !in done
    ensures Remaining(ops, done, k) == Remaining(ops, done + {i}, k) + multiset{ops[i]}
  {
    if i == k - 1 {
      RemainingSame(ops, done, k - 1, i);
    } else {
      RemainingRemove(ops, done, k - 1, i);
      assert k - 1 in done <==> k - 1 in done + {i};
    }
  }

  /** The rooted list shows the operations, with returns before calls exactly where real time says so. */
  ghost predicate Shows<I, O>(e: seq<Entry<I, O>>, ops: seq<Operation<I, O>>) {
    && WellFormed(e, |ops|)
    && (forall p | 0 < p < |e| :: IsEntryOf(e[p], ops))
    && (forall p, q | IsReturn(e, p) && IsCall(e, q) :: p < q <==> ops[e[p].id].ret < ops[e[q].id].call)
  }

  lemma RootedMembers<I, O>(h: seq<Entry<I, O>>, ops: seq<Operation<I, O>>, id: int)
    requires Represents(h, ops) && 0 <= id < |ops|
    ensures HasCall(Rooted(h), id) && HasReturn(Rooted(h), id)
  {
    var i :| 0 <= i < |h| && h[i] == CallOf(ops, id);
    assert IsCall(Rooted(h), i + 1) && Rooted(h)[i + 1].id == id;
    var j :| 0 <= j < |h| && h[j] == ReturnOf(ops, id);
    assert IsReturn(Rooted(h), j + 1) && Rooted(h)[j + 1].id == id;
  }

  lemma RepresentsShows<I, O>(h: seq<Entry<I, O>>, ops: seq<Operation<I, O>>)
    requires Represents(h, ops)
    ensures Shows(Rooted(h), ops)
  {
    hide HasCall, HasReturn;
    var e := Rooted(h);
    forall p | 0 < p < |e|
      ensures e[p] == h[p - 1] && IsEntryOf(e[p], ops)
    {
    }
    forall p, q | 0 < p < q < |e| && e[p].id == e[q].id
      ensures IsCall(e, p) && IsReturn(e, q)
    {
      assert e[p] == h[p - 1] && e[q] == h[q - 1];
    }
    forall id | 0 <= id < |ops|
      ensures HasCall(e, id) && HasReturn(e, id)
    {
      RootedMembers(h, ops, id);
    }
    forall p, q | IsReturn(e, p) && IsCall(e, q)
      ensures p < q <==> ops[e[p].id].ret < ops[e[q].id].call
    {
      assert e[p] == h[p - 1] && e[q] == h[q - 1];
    }
  }

  /** A call is a candidate exactly when no remaining operation returned before it was called. */
  lemma CandidateMeaning<I, O>(e: seq<Entry<I, O>>, ops: seq<Operation<I, O>>, done: set<int>, c: int)
    requires Shows(e, ops) && IsCall(e, c) && e[c].id !in done
    ensures Candidate(e, done, c) <==>
            forall b | 0 <= b < |ops| && b !in done :: !(ops[b].ret < ops[e[c].id].call)
  {
    if Candidate(e, done, c) {
      forall b | 0 <= b < |ops| && b !in done
        ensures !(ops[b].ret < ops[e[c].id].call)
      {
        assert HasReturn(e, b);
        var k :| IsReturn(e, k) && e[k].id == b;
      }
    } else {
      var k :| 0 < k < c && e[k].id !in done && !e[k].kind.CallEntry?;
      assert IsReturn(e, k);
      assert ops[e[k].id].ret < ops[e[c].id].call;
    }
  }

  lemma StepAtMeaning<S, I, O>(m: Model<S, I, O>, e: seq<Entry<I, O>>, ops: seq<Operation<I, O>>, c: int, s: S)
    requires Shows(e, ops) && IsCall(e, c)
    ensures 0 <= e[c].id < |ops|
    ensures var op := ops[e[c].id]; StepAt(m, e, |ops|, c, s) == m.step(s, op.input, op.output)
  {
    var r := Mate(e, |ops|, c);
    assert IsEntryOf(e[c], ops) && IsEntryOf(e[r], ops);
  }

  lemma PrependAccepted<S, I, O>(m: Model<S, I, O>, s: S, op: Operation<I, O>, lin: seq<Operation<I, O>>)
    requires m.step(s, op.input, op.output).0
    requires Accepted(m, m.step(s, op.input, op.output).1, lin)
    ensures Accepted(m, s, [op] + lin)
  {
    assert ([op] + lin)[1..] == lin;
  }

  lemma PrependRealTime<I, O>(op: Operation<I, O>, lin: seq<Operation<I, O>>)
    requires RealTimeOrdered(lin)
    requires forall x | x in lin :: !(x.ret < op.call)
    ensures RealTimeOrdered([op] + lin)
  {
    var all := [op] + lin;
    forall i, j | 0 <= i < j < |all|
      ensures !(all[j].ret < all[i].call)
    {
      assert all[j] == lin[j - 1] && lin[j - 1] in lin;
      if i > 0 {
        assert all[i] == lin[i - 1];
      }
    }
  }

  lemma PrependLinearization<S, I, O>(
    m: Model<S, I, O>, ops: seq<Operation<I, O>>, done: set<int>, s: S, id: int, lin: seq<Operation<I, O>>)
    requires 0 <= id < |ops| && id !in done
    requires forall b | 0 <= b < |ops| && b !in done :: !(ops[b].ret < ops[id].call)
    requires m.step(s, ops[id].input, ops[id].output).0
    requires IsLinearization(
               m, m.step(s, ops[id].input, ops[id].output).1, Remaining(ops, done + {id}, |ops|), lin)
    ensures IsLinearization(m, s, Remaining(ops, done, |ops|), [ops[id]] + lin)
  {
    hide Accepted, RealTimeOrdered, Remaining;
    RemainingRemove(ops, done, |ops|, id);
    RemainingMembers(ops, done + {id}, |ops|);
    forall x | x in lin
      ensures !(x.ret < ops[id].call)
    {
      assert x in multiset(lin);
    }
    PrependRealTime(ops[id], lin);
    PrependAccepted(m, s, ops[id], lin);
  }

  lemma {:induction false} FinishedIsLinearized<S, I, O>(
    m: Model<S, I, O>, e: seq<Entry<I, O>>, ops: seq<Operation<I, O>>, done: set<int>, s: S)
    requires Shows(e, ops) && WellFormed(e, |ops|)
    requires CanFinish(m, e, |ops|, done, s)
    ensures exists lin :: IsLinearization(m, s, Remaining(ops, done, |ops|), lin)
    decreases Ids(|ops|) - done
  {
    hide *;
    var n := |ops|;
    if Ids(n) <= done {
      NothingRemains(ops, done);
      EmptyLinearization(m, s);
    } else {
      var c := SomeWayToFinish(m, e, n, done, s);
      var id := e[c].id;
      StepAtMeaning(m, e, ops, c, s);
      FinishedIsLinearized(m, e, ops, done + {id}, StepAt(m, e, n, c, s).1);
      var lin :| IsLinearization(m, StepAt(m, e, n, c, s).1, Remaining(ops, done + {id}, n), lin);
      CandidateMeaning(e, ops, done, c);
      PrependLinearization(m, ops, done, s, id, lin);
    }
  }

  lemma NothingRemains<I, O>(ops: seq<Operation<I, O>>, done: set<int>)
    ensures Ids(|ops|) <= done <==> Remaining(ops, done, |ops|) == multiset{}
  {
    RemainingMembers(ops, done, |ops|);
    if Ids(|ops|) <= done {
      assert forall x :: x !in Remaining(ops, done, |ops|);
    }
  }

  lemma EmptyLinearization<S, I, O>(m: Model<S, I, O>, s: S)
    ensures IsLinearization<S, I, O>(m, s, multiset{}, [])
  {
  }

  lemma SomeWayToFinish<S, I, O>(
    m: Model<S, I, O>, e: seq<Entry<I, O>>, n: nat, done: set<int>, s: S) returns (c: int)
    requires WellFormed(e, n) && CanFinish(m, e, n, done, s) && !(Ids(n) <= done)
    ensures Candidate(e, done, c) && IsCall(e, c) && e[c].id !in done && e[c].id in Ids(n)
    ensures StepAt(m, e, n, c, s).0
    ensures CanFinish(m, e, n, done + {e[c].id}, StepAt(m, e, n, c, s).1)
  {
    c :| CanFinishBy(m, e, n, done, s, c);
  }

  lemma OneWayToFinish<S, I, O>(m: Model<S, I, O>, e: seq<Entry<I, O>>, n: nat, done: set<int>, s: S, c: int)
    requires WellFormed(e, n) && Candidate(e, done, c)
    requires StepAt(m, e, n, c, s).0
    requires CanFinish(m, e, n, done + {e[c].id}, StepAt(m, e, n, c, s).1)
    ensures CanFinish(m, e, n, done, s)
  {
    assert CanFinishBy(m, e, n, done, s, c);
  }

  lemma RealTimeHead<I, O>(lin: seq<Operation<I, O>>, x: Operation<I, O>)
    requires lin != [] && RealTimeOrdered(lin) && x in multiset(lin[1..])
    ensures !(x.ret < lin[0].call)
  {
    var j :| 0 <= j < |lin[1..]| && lin[1..][j] == x;
  }

  lemma CancelHead<T>(xs: seq<T>, rest: multiset<T>)
    requires xs != [] && multiset(xs) == rest + multiset{xs[0]}
    ensures multiset(xs[1..]) == rest
  {
    assert xs == [xs[0]] + xs[1..];
    assert multiset(xs) == multiset{xs[0]} + multiset(xs[1..]);
    forall x
      ensures multiset(xs[1..])[x] == rest[x]
    {
      assert multiset(xs)[x] == (rest + multiset{xs[0]})[x];
    }
  }

  /** Which id the head of a linearization of the remaining operations has. */
  lemma HeadId<I, O>(ops: seq<Operation<I, O>>, done: set<int>, lin: seq<Operation<I, O>>) returns (id: int)
    requires lin != [] && RealTimeOrdered(lin) && multiset(lin) == Remaining(ops, done, |ops|)
    ensures 0 <= id < |ops| && id !in done && ops[id] == lin[0]
    ensures multiset(lin[1..]) == Remaining(ops, done + {id}, |ops|)
    ensures forall b | 0 <= b < |ops| && b !in done && b != id :: !(ops[b].ret < ops[id].call)
  {
    hide Remaining, RealTimeOrdered;
    RemainingMembers(ops, done, |ops|);
    assert lin[0] in multiset(lin);
    id :| 0 <= id < |ops| && id !in done && ops[id] == lin[0];
    RemainingRemove(ops, done, |ops|, id);
    CancelHead(lin, Remaining(ops, done + {id}, |ops|));
    RemainingMembers(ops, done + {id}, |ops|);
    forall b | 0 <= b < |ops| && b !in done && b != id
      ensures !(ops[b].ret < ops[id].call)
    {
      RealTimeHead(lin, ops[b]);
    }
  }

  lemma AcceptedHead<S, I, O>(m: Model<S, I, O>, s: S, lin: seq<Operation<I, O>>)
    requires lin != [] && Accepted(m, s, lin) && RealTimeOrdered(lin)
    ensures m.step(s, lin[0].input, lin[0].output).0
    ensures Accepted(m, m.step(s, lin[0].input, lin[0].output).1, lin[1..])
    ensures RealTimeOrdered(lin[1..])
  {
  }

  lemma HeadOfLinearization<S, I, O>(
    m: Model<S, I, O>, e: seq<Entry<I, O>>, ops: seq<Operation<I, O>>, done: set<int>, s: S,
    lin: seq<Operation<I, O>>) returns (c: int)
    requires Shows(e, ops) && lin != []
    requires IsLinearization(m, s, Remaining(ops, done, |ops|), lin)
    ensures Candidate(e, done, c) && IsCall(e, c) && StepAt(m, e, |ops|, c, s).0
    ensures IsLinearization(
              m, StepAt(m, e, |ops|, c, s).1, Remaining(ops, done + {e[c].id}, |ops|), lin[1..])
  {
    hide Remaining, WellFormed, Candidate, StepAt, Accepted, RealTimeOrdered;
    var id := HeadId(ops, done, lin);
    c := CallPosition(e, |ops|, id);
    StepAtMeaning(m, e, ops, c, s);
    OwnReturn(e, ops, c);
    CandidateMeaning(e, ops, done, c);
    AcceptedHead(m, s, lin);
  }

  lemma CallPosition<I, O>(e: seq<Entry<I, O>>, n: nat, id: int) returns (c: int)
    requires WellFormed(e, n) && 0 <= id < n
    ensures IsCall(e, c) && e[c].id == id
  {
    assert HasCall(e, id);
    c :| IsCall(e, c) && e[c].id == id;
  }

  lemma OwnReturn<I, O>(e: seq<Entry<I, O>>, ops: seq<Operation<I, O>>, c: int)
    requires Shows(e, ops) && IsCall(e, c)
    ensures !(ops[e[c].id].ret < ops[e[c].id].call)
  {
    var r := Mate(e, |ops|, c);
  }

  lemma {:induction false} LinearizedIsFinished<S, I, O>(
    m: Model<S, I, O>, e: seq<Entry<I, O>>, ops: seq<Operation<I, O>>, done: set<int>, s: S,
    lin: seq<Operation<I, O>>)
    requires Shows(e, ops) && WellFormed(e, |ops|)
    requires IsLinearization(m, s, Remaining(ops, done, |ops|), lin)
    ensures CanFinish(m, e, |ops|, done, s)
    decreases |lin|
  {
    if lin == [] {
      NothingRemains(ops, done);
    } else {
      hide *;
      var c := HeadOfLinearization(m, e, ops, done, s, lin);
      LinearizedIsFinished(m, e, ops, done + {e[c].id}, StepAt(m, e, |ops|, c, s).1, lin[1..]);
      OneWayToFinish(m, e, |ops|, done, s, c);
    }
  }

  /** The search space answers the question: it can be exhausted from the start exactly when the
      operations are linearizable. */
  lemma SearchMeansLinearizable<S, I(!new), O(!new)>(
    m: Model<S, I, O>, e: seq<Entry<I, O>>, ops: seq<Operation<I, O>>)
    requires Shows(e, ops)
    ensures CanFinish(m, e, |ops|, {}, m.init) <==> Linearizable(m, ops)
  {
    RemainingAll(ops, |ops|);
    assert ops[..|ops|] == ops;
    if CanFinish(m, e, |ops|, {}, m.init) {
      FinishedIsLinearized(m, e, ops, {}, m.init);
    }
    if Linearizable(m, ops) {
      var lin :| IsLinearization(m, m.init, multiset(ops), lin);
      LinearizedIsFinished(m, e, ops, {}, m.init, lin);
    }
  }
}
