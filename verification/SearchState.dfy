/** The invariant of the memoized depth-first search of `checkSingle`
    (src/porcupine/checker.go, the loop of `checkSingle`), on values. */
module SearchState {
  import opened FiniteSets
  import opened Linearizability
  import opened Entries
  import opened Search

  /** A set of linearized ids with the state they lead to. */
  type Config<S> = (set<int>, S)

  /** `path` holds the positions of the calls on the undo stack, `states` the state before each of
      them and the current one, `seen` the memo cache, `pos` the position under examination. */
  datatype State<S(==)> = State(path: seq<int>, states: seq<S>, seen: set<Config<S>>, pos: int)

  ghost function Front<T>(xs: seq<T>): seq<T>
    requires xs != []
  {
    xs[..|xs| - 1]
  }

  ghost function Last<T>(xs: seq<T>): T
    requires xs != []
  {
    xs[|xs| - 1]
  }

  /** The ids linearized by the calls at positions `path`. */
  ghost function Lin<I, O>(e: seq<Entry<I, O>>, path: seq<int>): set<int> {
    if path == [] then {}
    else Lin(e, Front(path)) + if 0 <= Last(path) < |e| then {e[Last(path)].id} else {}
  }

  /** Every way forward through a candidate before `limit` is known to fail. */
  ghost predicate TriedBelow<S, I, O>(
    m: Model<S, I, O>, e: seq<Entry<I, O>>, n: nat, done: set<int>, s: S, limit: int)
    requires WellFormed(e, n)
  {
    forall p | p < limit :: !CanFinishBy(m, e, n, done, s, p)
  }

  /** The stack is a run of the model through candidates, and at each level everything before the
      chosen call has been tried. */
  ghost predicate Frames<S, I, O>(
    m: Model<S, I, O>, e: seq<Entry<I, O>>, n: nat, path: seq<int>, states: seq<S>, limit: int)
    requires WellFormed(e, n)
    decreases |path|
  {
    && |states| == |path| + 1
    && TriedBelow(m, e, n, Lin(e, path), Last(states), limit)
    && if path == [] then states[0] == m.init else
         && Candidate(e, Lin(e, Front(path)), Last(path))
         && StepAt(m, e, n, Last(path), Last(Front(states))) == (true, Last(states))
         && Frames(m, e, n, Front(path), Front(states), Last(path))
  }

  /** The configurations entered by the calls on the stack. */
  ghost function PathConfigs<S, I, O>(e: seq<Entry<I, O>>, path: seq<int>, states: seq<S>): set<Config<S>>
    requires |states| == |path| + 1
    decreases |path|
  {
    if path == [] then {}
    else PathConfigs(e, Front(path), Front(states)) + {(Lin(e, path), Last(states))}
  }

  /** The cache holds the stack's configurations; every other cached configuration is a dead end. */
  ghost predicate Memo<S, I, O>(
    m: Model<S, I, O>, e: seq<Entry<I, O>>, n: nat, seen: set<Config<S>>, current: set<Config<S>>)
    requires WellFormed(e, n)
  {
    && current <= seen <= Universe(m, e, n)
    && forall c | c in seen && c !in current :: !CanFinish(m, e, n, c.0, c.1)
  }

  ghost predicate NoReturnBefore<I, O>(e: seq<Entry<I, O>>, done: set<int>, pos: int) {
    forall k | 0 < k < pos && k < |e| && e[k].id !in done :: e[k].kind.CallEntry?
  }

  ghost predicate Inv<S, I, O>(m: Model<S, I, O>, e: seq<Entry<I, O>>, n: nat, st: State<S>) {
    && WellFormed(e, n)
    && Frames(m, e, n, st.path, st.states, st.pos)
    && Memo(m, e, n, st.seen, PathConfigs(e, st.path, st.states))
    && 0 < st.pos <= |e|
    && NoReturnBefore(e, Lin(e, st.path), st.pos)
    && (st.pos < |e| ==> e[st.pos].id !in Lin(e, st.path))
  }

  /** `p` is the next remaining position after `i`, or the end of the list. */
  ghost predicate IsNext<I, O>(e: seq<Entry<I, O>>, done: set<int>, i: int, p: int) {
    && 0 <= i < p <= |e|
    && (p < |e| ==> e[p].id !in done)
    && forall k | i < k < p :: e[k].id in done
  }

  // ----- finitely many configurations

  /** Configurations reachable in at most `k` steps. */
  ghost function Reach<S, I, O>(m: Model<S, I, O>, e: seq<Entry<I, O>>, n: nat, k: nat): set<Config<S>>
    requires WellFormed(e, n)
  {
    if k == 0 then {({}, m.init)} else
      Reach(m, e, n, k - 1) + Successors(m, e, n, Reach(m, e, n, k - 1))
  }

  ghost function Successors<S, I, O>(
    m: Model<S, I, O>, e: seq<Entry<I, O>>, n: nat, cs: set<Config<S>>): set<Config<S>>
    requires WellFormed(e, n)
  {
    set c, p | c in cs && p in Ids(|e|) && IsCall(e, p) :: (c.0 + {e[p].id}, StepAt(m, e, n, p, c.1).1)
  }

  ghost function Universe<S, I, O>(m: Model<S, I, O>, e: seq<Entry<I, O>>, n: nat): set<Config<S>>
    requires WellFormed(e, n)
  {
    Reach(m, e, n, n)
  }

  lemma {:induction false} ReachGrows<S, I, O>(
    m: Model<S, I, O>, e: seq<Entry<I, O>>, n: nat, j: nat, k: nat)
    requires WellFormed(e, n) && j <= k
    ensures Reach(m, e, n, j) <= Reach(m, e, n, k)
  {
    hide Successors, WellFormed;
    if j < k {
      ReachGrows(m, e, n, j, k - 1);
    }
  }

  lemma {:induction false} PathSize<S, I, O>(
    m: Model<S, I, O>, e: seq<Entry<I, O>>, n: nat, path: seq<int>, states: seq<S>, limit: int)
    requires WellFormed(e, n) && Frames(m, e, n, path, states, limit)
    ensures |Lin(e, path)| == |path| && Lin(e, path) <= Ids(n)
    ensures forall c | c in PathConfigs(e, path, states) :: |c.0| <= |path|
    ensures (Lin(e, path), Last(states)) in Reach(m, e, n, |path|)
    decreases |path|
  {
    if path != [] {
      var c := Last(path);
      PathSize(m, e, n, Front(path), Front(states), c);
      assert IsCall(e, c) && c in Ids(|e|);
      IdInRange(e, n, c);
    }
  }

  lemma PathBound(n: nat, done: set<int>)
    requires done <= Ids(n)
    ensures |done| <= n
  {
    IdsSize(n);
    SubsetSize(done, Ids(n));
  }

  lemma {:induction false} IdsSize(n: nat)
    ensures |Ids(n)| == n
  {
    if n > 0 {
      IdsSize(n - 1);
    }
  }

  // ----- the steps of the loop

  lemma InitiallyInv<S, I, O>(m: Model<S, I, O>, e: seq<Entry<I, O>>, n: nat)
    requires WellFormed(e, n)
    ensures Inv(m, e, n, State([], [m.init], {}, 1))
  {
    assert TriedBelow(m, e, n, {}, m.init, 1);
  }

  /** The list runs out only when every operation is linearized. */
  lemma RemainingCallHasReturn<I, O>(e: seq<Entry<I, O>>, n: nat, done: set<int>, i: int, p: int)
    requires WellFormed(e, n) && IsCall(e, i) && e[i].id !in done && IsNext(e, done, i, p)
    ensures p < |e|
  {
    var r := Mate(e, n, i);
  }

  lemma EmptyListMeansAll<I, O>(e: seq<Entry<I, O>>, n: nat, done: set<int>)
    requires WellFormed(e, n) && IsNext(e, done, 0, |e|)
    ensures Ids(n) <= done
  {
    forall id | id in Ids(n)
      ensures id in done
    {
      var c := CallPosition(e, n, id);
    }
  }

  /** Moving past a call that cannot be taken, or whose outcome is cached. */
  lemma AdvanceKeeps<S, I, O>(m: Model<S, I, O>, e: seq<Entry<I, O>>, n: nat, st: State<S>, p: int)
    requires Inv(m, e, n, st) && IsCall(e, st.pos)
    requires var (ok, s') := StepAt(m, e, n, st.pos, Last(st.states));
             ok ==> (Lin(e, st.path) + {e[st.pos].id}, s') in st.seen
    requires IsNext(e, Lin(e, st.path), st.pos, p)
    ensures Inv(m, e, n, st.(pos := p)) && p < |e|
  {
    var done, s := Lin(e, st.path), Last(st.states);
    PathSize(m, e, n, st.path, st.states, st.pos);
    RemainingCallHasReturn(e, n, done, st.pos, p);
    forall q | q < p
      ensures !CanFinishBy(m, e, n, done, s, q)
    {
      if q == st.pos && StepAt(m, e, n, q, s).0 {
        SuccessorOffPath(m, e, n, st);
      }
    }
    FramesLimit(m, e, n, st.path, st.states, st.pos, p);
  }

  lemma SuccessorOffPath<S, I, O>(m: Model<S, I, O>, e: seq<Entry<I, O>>, n: nat, st: State<S>)
    requires Inv(m, e, n, st) && IsCall(e, st.pos)
    ensures (Lin(e, st.path) + {e[st.pos].id}, StepAt(m, e, n, st.pos, Last(st.states)).1)
            !in PathConfigs(e, st.path, st.states)
  {
    hide Memo, Universe, WellFormed, PathConfigs, TriedBelow;
    PathSize(m, e, n, st.path, st.states, st.pos);
    assert |Lin(e, st.path) + {e[st.pos].id}| == |st.path| + 1;
  }

  lemma FramesLimit<S, I, O>(
    m: Model<S, I, O>, e: seq<Entry<I, O>>, n: nat, path: seq<int>, states: seq<S>, limit: int, limit': int)
    requires WellFormed(e, n) && Frames(m, e, n, path, states, limit)
    requires TriedBelow(m, e, n, Lin(e, path), Last(states), limit')
    ensures Frames(m, e, n, path, states, limit')
  {
  }

  lemma FramesTried<S, I, O>(
    m: Model<S, I, O>, e: seq<Entry<I, O>>, n: nat, path: seq<int>, states: seq<S>, limit: int)
    requires WellFormed(e, n) && Frames(m, e, n, path, states, limit)
    ensures |states| == |path| + 1 && TriedBelow(m, e, n, Lin(e, path), Last(states), limit)
  {
  }

  /** Linearizing the call under examination. */
  lemma PushKeeps<S, I, O>(m: Model<S, I, O>, e: seq<Entry<I, O>>, n: nat, st: State<S>, s': S, p: int)
    requires Inv(m, e, n, st) && IsCall(e, st.pos)
    requires StepAt(m, e, n, st.pos, Last(st.states)) == (true, s')
    requires var next := Lin(e, st.path) + {e[st.pos].id};
             (next, s') !in st.seen && IsNext(e, next, 0, p)
    ensures var next := Lin(e, st.path) + {e[st.pos].id};
            && Lin(e, st.path + [st.pos]) == next
            && (next, s') in Universe(m, e, n)
            && Inv(m, e, n, State(st.path + [st.pos], st.states + [s'], st.seen + {(next, s')}, p))
  {
    var path, states := st.path + [st.pos], st.states + [s'];
    var next := Lin(e, st.path) + {e[st.pos].id};
    assert Front(path) == st.path && Last(path) == st.pos;
    assert Front(states) == st.states && Last(states) == s';
    assert Lin(e, path) == next;
    assert TriedBelow(m, e, n, next, s', p);
    assert Frames(m, e, n, path, states, p);
    assert PathConfigs(e, path, states) == PathConfigs(e, st.path, st.states) + {(next, s')};
    InUniverse(m, e, n, path, states, p);
  }

  lemma PushFrames<S, I, O>(m: Model<S, I, O>, e: seq<Entry<I, O>>, n: nat, st: State<S>, s': S)
    requires Inv(m, e, n, st) && IsCall(e, st.pos)
    requires StepAt(m, e, n, st.pos, Last(st.states)) == (true, s')
    ensures Frames(m, e, n, st.path + [st.pos], st.states + [s'], 0)
    ensures Lin(e, st.path + [st.pos]) == Lin(e, st.path) + {e[st.pos].id}
  {
    var path, states := st.path + [st.pos], st.states + [s'];
    assert Front(path) == st.path && Last(path) == st.pos;
    assert Front(states) == st.states && Last(states) == s';
    assert TriedBelow(m, e, n, Lin(e, path), s', 0);
  }

  lemma InUniverse<S, I, O>(
    m: Model<S, I, O>, e: seq<Entry<I, O>>, n: nat, path: seq<int>, states: seq<S>, limit: int)
    requires WellFormed(e, n) && Frames(m, e, n, path, states, limit)
    ensures (Lin(e, path), Last(states)) in Universe(m, e, n)
  {
    PathSize(m, e, n, path, states, limit);
    PathBound(n, Lin(e, path));
    ReachGrows(m, e, n, |path|, n);
  }

  /** A remaining return with everything before it tried is a dead end. */
  lemma DeadEnd<S, I, O>(m: Model<S, I, O>, e: seq<Entry<I, O>>, n: nat, st: State<S>)
    requires Inv(m, e, n, st) && IsReturn(e, st.pos)
    ensures !CanFinish(m, e, n, Lin(e, st.path), Last(st.states))
  {
    var done, s := Lin(e, st.path), Last(st.states);
    IdInRange(e, n, st.pos);
    forall q
      ensures !CanFinishBy(m, e, n, done, s, q)
    {
      if q >= st.pos {
        assert !Candidate(e, done, q);
      }
    }
  }

  /** Undoing the latest call after a dead end. */
  lemma PopKeeps<S, I, O>(m: Model<S, I, O>, e: seq<Entry<I, O>>, n: nat, st: State<S>, p: int)
    requires Inv(m, e, n, st) && IsReturn(e, st.pos) && st.path != []
    requires IsNext(e, Lin(e, Front(st.path)), Last(st.path), p)
    ensures Inv(m, e, n, State(Front(st.path), Front(st.states), st.seen, p)) && p < |e|
  {
    hide Memo, Universe, PathConfigs, WellFormed;
    var path, states, c := Front(st.path), Front(st.states), Last(st.path);
    var done, s := Lin(e, path), Last(states);
    assert Lin(e, st.path) == done + {e[c].id};
    assert Frames(m, e, n, path, states, c);
    FramesTried(m, e, n, path, states, c);
    DeadEnd(m, e, n, st);
    RemainingCallHasReturn(e, n, done, c, p);
    forall q | q < p
      ensures !CanFinishBy(m, e, n, done, s, q)
    {
      if q == c {
        assert StepAt(m, e, n, c, s) == (true, Last(st.states));
        assert !CanFinish(m, e, n, done + {e[c].id}, Last(st.states));
      } else if q > c {
        assert !Candidate(e, done, q);
      }
    }
    FramesLimit(m, e, n, path, states, c, p);
    MemoPop(m, e, n, st);
  }

  lemma MemoPop<S, I, O>(m: Model<S, I, O>, e: seq<Entry<I, O>>, n: nat, st: State<S>)
    requires WellFormed(e, n) && st.path != [] && |st.states| == |st.path| + 1
    requires Memo(m, e, n, st.seen, PathConfigs(e, st.path, st.states))
    requires !CanFinish(m, e, n, Lin(e, st.path), Last(st.states))
    ensures Memo(m, e, n, st.seen, PathConfigs(e, Front(st.path), Front(st.states)))
  {
    hide CanFinish, Universe, Lin, WellFormed;
    var path, states := Front(st.path), Front(st.states);
    forall x | x in st.seen && x !in PathConfigs(e, path, states)
      ensures !CanFinish(m, e, n, x.0, x.1)
    {
      if x in PathConfigs(e, st.path, st.states) {
        assert x == (Lin(e, st.path), Last(st.states));
      }
    }
  }

  /** A stack that linearizes every operation shows that the start could be finished. */
  lemma {:induction false} FullPathFinishes<S, I, O>(
    m: Model<S, I, O>, e: seq<Entry<I, O>>, n: nat, path: seq<int>, states: seq<S>, limit: int)
    requires WellFormed(e, n) && Frames(m, e, n, path, states, limit)
    requires CanFinish(m, e, n, Lin(e, path), Last(states))
    ensures CanFinish(m, e, n, {}, m.init)
    decreases |path|
  {
    if path != [] {
      OneWayToFinish(m, e, n, Lin(e, Front(path)), Last(Front(states)), Last(path));
      FullPathFinishes(m, e, n, Front(path), Front(states), Last(path));
    }
  }
}
