/** What `checkSingle` stores in `longest` (src/porcupine/checker.go:218-252). */
module PartialLinearizations {
  import opened Linearizability
  import opened Entries
  import opened Search
  import opened SearchState

  /** The ids of the calls at positions `path`. */
  function IdsOf<I, O>(e: seq<Entry<I, O>>, path: seq<int>): seq<int> {
    seq(|path|, j requires 0 <= j < |path| => if 0 <= path[j] < |e| then e[path[j]].id else -1)
  }

  /** `ids` is the order of some stack that the search can have. */
  ghost predicate IsPartial<S(!new), I, O>(m: Model<S, I, O>, e: seq<Entry<I, O>>, n: nat, ids: seq<int>)
    requires WellFormed(e, n)
  {
    exists path: seq<int>, states: seq<S>, limit: int :: Frames(m, e, n, path, states, limit) && ids == IdsOf(e, path)
  }

  /** The state after running `lin` from `s`. */
  ghost function Final<S, I, O>(m: Model<S, I, O>, s: S, lin: seq<Operation<I, O>>): S
    decreases |lin|
  {
    if lin == [] then s else Final(m, m.step(s, lin[0].input, lin[0].output).1, lin[1..])
  }

  lemma {:induction false} AcceptedSnoc<S, I, O>(
    m: Model<S, I, O>, s: S, lin: seq<Operation<I, O>>, op: Operation<I, O>)
    requires Accepted(m, s, lin) && m.step(Final(m, s, lin), op.input, op.output).0
    ensures Accepted(m, s, lin + [op])
    ensures Final(m, s, lin + [op]) == m.step(Final(m, s, lin), op.input, op.output).1
    decreases |lin|
  {
    if lin == [] {
      assert ([] + [op])[1..] == [];
    } else {
      AcceptedSnoc(m, m.step(s, lin[0].input, lin[0].output).1, lin[1..], op);
      assert (lin + [op])[1..] == lin[1..] + [op];
    }
  }

  function Pick<I, O>(ops: seq<Operation<I, O>>, ids: seq<int>): seq<Operation<I, O>>
    requires forall j | 0 <= j < |ids| :: 0 <= ids[j] < |ops|
  {
    seq(|ids|, j requires 0 <= j < |ids| => ops[ids[j]])
  }

  /** Distinct ids, accepted in order, and each taken only after everything that returned before it. */
  ghost predicate Meaningful<S, I, O>(m: Model<S, I, O>, ops: seq<Operation<I, O>>, ids: seq<int>) {
    && (forall j | 0 <= j < |ids| :: 0 <= ids[j] < |ops|)
    && (forall j, k | 0 <= j < k < |ids| :: ids[j] != ids[k])
    && (forall j, b | 0 <= j < |ids| && 0 <= b < |ops| && ops[b].ret < ops[ids[j]].call :: b in ids[..j])
    && Accepted(m, m.init, Pick(ops, ids))
  }

  lemma IdsOfSnoc<I, O>(e: seq<Entry<I, O>>, path: seq<int>)
    requires path != [] && 0 <= Last(path) < |e|
    ensures IdsOf(e, path) == IdsOf(e, Front(path)) + [e[Last(path)].id]
  {
  }

  lemma {:induction false} LinIsIds<S, I, O>(
    m: Model<S, I, O>, e: seq<Entry<I, O>>, n: nat, path: seq<int>, states: seq<S>, limit: int)
    requires WellFormed(e, n) && Frames(m, e, n, path, states, limit)
    ensures forall id :: id in Lin(e, path) <==> id in IdsOf(e, path)
    decreases |path|
  {
    if path != [] {
      LinIsIds(m, e, n, Front(path), Front(states), Last(path));
      IdsOfSnoc(e, path);
    }
  }

  lemma MeaningfulSnoc<S, I, O>(m: Model<S, I, O>, ops: seq<Operation<I, O>>, ids: seq<int>, id: int)
    requires Meaningful(m, ops, ids) && 0 <= id < |ops| && id !in ids
    requires forall b | 0 <= b < |ops| && ops[b].ret < ops[id].call :: b in ids
    requires m.step(Final(m, m.init, Pick(ops, ids)), ops[id].input, ops[id].output).0
    ensures Meaningful(m, ops, ids + [id])
    ensures Final(m, m.init, Pick(ops, ids + [id]))
         == m.step(Final(m, m.init, Pick(ops, ids)), ops[id].input, ops[id].output).1
  {
    var all := ids + [id];
    assert Pick(ops, all) == Pick(ops, ids) + [ops[id]];
    AcceptedSnoc(m, m.init, Pick(ops, ids), ops[id]);
    forall j, b | 0 <= j < |all| && 0 <= b < |ops| && ops[b].ret < ops[all[j]].call
      ensures b in all[..j]
    {
      if j < |ids| {
        assert all[..j] == ids[..j];
      } else {
        assert all[..j] == ids;
      }
    }
  }

  lemma RunStep<S, I, O>(
    m: Model<S, I, O>, e: seq<Entry<I, O>>, ops: seq<Operation<I, O>>, ids: seq<int>, done: set<int>, c: int, s: S)
    requires Shows(e, ops) && WellFormed(e, |ops|) && Candidate(e, done, c) && IsCall(e, c) && e[c].id !in done
    requires forall id :: id in done <==> id in ids
    requires Meaningful(m, ops, ids) && Final(m, m.init, Pick(ops, ids)) == s
    requires StepAt(m, e, |ops|, c, s).0
    ensures Meaningful(m, ops, ids + [e[c].id])
    ensures Final(m, m.init, Pick(ops, ids + [e[c].id])) == StepAt(m, e, |ops|, c, s).1
  {
    hide Shows, WellFormed, Accepted, Final, Candidate, StepAt;
    StepAtMeaning(m, e, ops, c, s);
    CandidateMeaning(e, ops, done, c);
    MeaningfulSnoc(m, ops, ids, e[c].id);
  }

  /** Every stack has a meaningful order of ids, ending in its last state. */
  lemma {:induction false} StackIsMeaningful<S, I, O>(
    m: Model<S, I, O>, e: seq<Entry<I, O>>, ops: seq<Operation<I, O>>, path: seq<int>, states: seq<S>, limit: int)
    requires Shows(e, ops) && WellFormed(e, |ops|) && Frames(m, e, |ops|, path, states, limit)
    ensures Meaningful(m, ops, IdsOf(e, path))
    ensures Final(m, m.init, Pick(ops, IdsOf(e, path))) == Last(states)
    decreases |path|
  {
    if path == [] {
      assert Pick(ops, IdsOf(e, path)) == [];
    } else {
      hide Shows, WellFormed, Accepted, Final, StepAt, Meaningful, IdsOf, Lin, Pick;
      var rest, before, c := Front(path), Front(states), Last(path);
      assert IsCall(e, c);
      StackIsMeaningful(m, e, ops, rest, before, c);
      LinIsIds(m, e, |ops|, rest, before, c);
      IdsOfSnoc(e, path);
      RunStep(m, e, ops, IdsOf(e, rest), Lin(e, rest), c, Last(before));
    }
  }

  /** So whatever order `checkSingle` reports replays without the visualizer's panic. */
  lemma PartialIsMeaningful<S(!new), I, O>(
    m: Model<S, I, O>, e: seq<Entry<I, O>>, ops: seq<Operation<I, O>>, ids: seq<int>)
    requires Shows(e, ops) && IsPartial(m, e, |ops|, ids)
    ensures Meaningful(m, ops, ids)
  {
    var path: seq<int>, states: seq<S>, limit: int :| Frames(m, e, |ops|, path, states, limit) && ids == IdsOf(e, path);
    StackIsMeaningful(m, e, ops, path, states, limit);
  }

  // ----- the other way round, when the search must fail

  lemma MeaningfulFront<S, I, O>(m: Model<S, I, O>, ops: seq<Operation<I, O>>, ids: seq<int>)
    requires Meaningful(m, ops, ids) && ids != []
    ensures Meaningful(m, ops, Front(ids)) && Last(ids) !in Front(ids) && 0 <= Last(ids) < |ops|
    ensures forall b | 0 <= b < |ops| && ops[b].ret < ops[Last(ids)].call :: b in Front(ids)
    ensures m.step(Final(m, m.init, Pick(ops, Front(ids))), ops[Last(ids)].input, ops[Last(ids)].output).0
  {
    var front, k := Front(ids), |ids| - 1;
    forall j, b | 0 <= j < |front| && 0 <= b < |ops| && ops[b].ret < ops[front[j]].call
      ensures b in front[..j]
    {
      assert front[j] == ids[j] && front[..j] == ids[..j];
    }
    assert ids[..k] == front;
    assert Pick(ops, ids) == Pick(ops, front) + [ops[ids[k]]];
    AcceptedFront(m, m.init, Pick(ops, front), ops[ids[k]]);
  }

  lemma {:induction false} AcceptedFront<S, I, O>(
    m: Model<S, I, O>, s: S, lin: seq<Operation<I, O>>, op: Operation<I, O>)
    requires Accepted(m, s, lin + [op])
    ensures Accepted(m, s, lin) && m.step(Final(m, s, lin), op.input, op.output).0
    decreases |lin|
  {
    if lin == [] {
      assert ([] + [op])[0] == op;
    } else {
      assert (lin + [op])[1..] == lin[1..] + [op] && (lin + [op])[0] == lin[0];
      AcceptedFront(m, m.step(s, lin[0].input, lin[0].output).1, lin[1..], op);
    }
  }

  /** If nothing can be finished, every meaningful order is one that the search can have on its stack. */
  lemma {:induction false} MeaningfulIsStack<S, I, O>(
    m: Model<S, I, O>, e: seq<Entry<I, O>>, ops: seq<Operation<I, O>>, ids: seq<int>)
    returns (path: seq<int>, states: seq<S>)
    requires Shows(e, ops) && WellFormed(e, |ops|) && Meaningful(m, ops, ids)
    requires !CanFinish(m, e, |ops|, {}, m.init)
    ensures |states| == |path| + 1 && IdsOf(e, path) == ids && forall limit :: Frames(m, e, |ops|, path, states, limit)
    ensures Last(states) == Final(m, m.init, Pick(ops, ids)) && !CanFinish(m, e, |ops|, Lin(e, path), Last(states))
    decreases |ids|
  {
    var n := |ops|;
    if ids == [] {
      path, states := [], [m.init];
      assert Pick(ops, ids) == [];
      assert forall limit :: TriedBelow(m, e, n, {}, m.init, limit);
    } else {
      MeaningfulFront(m, ops, ids);
      var rest, before := MeaningfulIsStack(m, e, ops, Front(ids));
      var c := CallPosition(e, n, Last(ids));
      path, states := ExtendStack(m, e, ops, Front(ids), rest, before, c);
      assert Front(ids) + [Last(ids)] == ids;
    }
  }

  /** One more call that no remaining return precedes and the model accepts. */
  lemma ExtendStack<S, I, O>(
    m: Model<S, I, O>, e: seq<Entry<I, O>>, ops: seq<Operation<I, O>>, ids: seq<int>, rest: seq<int>, before: seq<S>, c: int)
    returns (path: seq<int>, states: seq<S>)
    requires Shows(e, ops) && WellFormed(e, |ops|) && Meaningful(m, ops, ids) && IsCall(e, c)
    requires |before| == |rest| + 1 && IdsOf(e, rest) == ids && forall limit :: Frames(m, e, |ops|, rest, before, limit)
    requires Last(before) == Final(m, m.init, Pick(ops, ids)) && !CanFinish(m, e, |ops|, Lin(e, rest), Last(before))
    requires 0 <= e[c].id < |ops| && e[c].id !in ids
    requires forall b | 0 <= b < |ops| && ops[b].ret < ops[e[c].id].call :: b in ids
    requires m.step(Final(m, m.init, Pick(ops, ids)), ops[e[c].id].input, ops[e[c].id].output).0
    ensures |states| == |path| + 1 && IdsOf(e, path) == ids + [e[c].id]
    ensures forall limit :: Frames(m, e, |ops|, path, states, limit)
    ensures Last(states) == Final(m, m.init, Pick(ops, ids + [e[c].id]))
    ensures !CanFinish(m, e, |ops|, Lin(e, path), Last(states))
  {
    hide Shows, WellFormed, Accepted, Final, StepAt, CanFinish, Candidate, Frames, IdsOf;
    var n, s := |ops|, Last(before);
    assert Frames(m, e, n, rest, before, c);
    LinIsIds(m, e, n, rest, before, c);
    StepAtMeaning(m, e, ops, c, s);
    CandidateMeaning(e, ops, Lin(e, rest), c);
    path, states := rest + [c], before + [StepAt(m, e, n, c, s).1];
    assert Front(path) == rest && Last(path) == c && Front(states) == before;
    IdsOfSnoc(e, path);
    MeaningfulSnoc(m, ops, ids, e[c].id);
    if CanFinish(m, e, n, Lin(e, path), Last(states)) {
      OneWayToFinish(m, e, n, Lin(e, rest), s, c);
    }
    ExtendFrames(m, e, n, path, states);
  }

  lemma ExtendFrames<S, I, O>(m: Model<S, I, O>, e: seq<Entry<I, O>>, n: nat, path: seq<int>, states: seq<S>)
    requires WellFormed(e, n) && path != [] && |states| == |path| + 1
    requires Frames(m, e, n, Front(path), Front(states), Last(path)) && Candidate(e, Lin(e, Front(path)), Last(path))
    requires StepAt(m, e, n, Last(path), Last(Front(states))) == (true, Last(states))
    requires !CanFinish(m, e, n, Lin(e, path), Last(states))
    ensures forall limit :: Frames(m, e, n, path, states, limit)
  {
    forall limit
      ensures Frames(m, e, n, path, states, limit)
    {
      NoneFinishes(m, e, n, Lin(e, path), Last(states), limit);
    }
  }

  lemma NoneFinishes<S, I, O>(m: Model<S, I, O>, e: seq<Entry<I, O>>, n: nat, done: set<int>, s: S, limit: int)
    requires WellFormed(e, n) && !CanFinish(m, e, n, done, s)
    ensures TriedBelow(m, e, n, done, s, limit)
  {
  }

  /** When nothing can be finished, partial and meaningful are the same. */
  lemma MeaningfulIsPartial<S(!new), I, O>(m: Model<S, I, O>, e: seq<Entry<I, O>>, ops: seq<Operation<I, O>>, ids: seq<int>)
    requires Shows(e, ops) && WellFormed(e, |ops|) && Meaningful(m, ops, ids) && !CanFinish(m, e, |ops|, {}, m.init)
    ensures IsPartial(m, e, |ops|, ids)
  {
    hide Shows, WellFormed, Meaningful, CanFinish, Frames, IdsOf, Lin;
    var path, states := MeaningfulIsStack(m, e, ops, ids);
    assert Frames(m, e, |ops|, path, states, 0);
  }
}
