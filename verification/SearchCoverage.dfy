/** What the search of `checkSingle` has covered (src/porcupine/checker.go:190-243): a configuration
    that was left for good had all its successors tried, so a search that runs dry has been in every
    configuration there is. */
module SearchCoverage {
  import opened Linearizability
  import opened Entries
  import opened Search
  import opened SearchState

  /** The call at `p` leads on from a configuration. */
  ghost predicate LeadsOn<S, I, O>(m: Model<S, I, O>, e: seq<Entry<I, O>>, n: nat, c: Config<S>, p: int)
    requires WellFormed(e, n)
  {
    Candidate(e, c.0, p) && StepAt(m, e, n, p, c.1).0
  }

  /** The configuration it leads to. */
  ghost function Successor<S, I, O>(m: Model<S, I, O>, e: seq<Entry<I, O>>, n: nat, c: Config<S>, p: int): Config<S>
    requires WellFormed(e, n) && LeadsOn(m, e, n, c, p)
  {
    (c.0 + {e[p].id}, StepAt(m, e, n, p, c.1).1)
  }

  /** Every way on before `limit` leads to a configuration in the cache. */
  ghost predicate Explored<S, I, O>(
    m: Model<S, I, O>, e: seq<Entry<I, O>>, n: nat, seen: set<Config<S>>, c: Config<S>, limit: int)
    requires WellFormed(e, n)
  {
    forall p | p < limit && LeadsOn(m, e, n, c, p) :: Successor(m, e, n, c, p) in seen
  }

  /** The configurations on the stack are explored as far as the call taken from them. */
  ghost predicate StackExplored<S, I, O>(
    m: Model<S, I, O>, e: seq<Entry<I, O>>, n: nat, seen: set<Config<S>>, path: seq<int>, states: seq<S>, limit: int)
    requires WellFormed(e, n) && |states| == |path| + 1
    decreases |path|
  {
    && Explored(m, e, n, seen, (Lin(e, path), Last(states)), limit)
    && (path != [] ==> StackExplored(m, e, n, seen, Front(path), Front(states), Last(path)))
  }

  /** The configurations the search has left for good. */
  ghost function Left<S, I, O>(e: seq<Entry<I, O>>, st: State<S>): set<Config<S>>
    requires |st.states| == |st.path| + 1
  {
    st.seen - PathConfigs(e, st.path, st.states)
  }

  ghost predicate Covering<S, I, O>(m: Model<S, I, O>, e: seq<Entry<I, O>>, n: nat, st: State<S>)
    requires WellFormed(e, n) && |st.states| == |st.path| + 1
  {
    && StackExplored(m, e, n, st.seen, st.path, st.states, st.pos)
    && forall c | c in Left(e, st) :: Explored(m, e, n, st.seen, c, |e|)
  }

  lemma CoveringInitially<S, I, O>(m: Model<S, I, O>, e: seq<Entry<I, O>>, n: nat)
    requires WellFormed(e, n)
    ensures Covering(m, e, n, State([], [m.init], {}, 1)) && Left(e, State([], [m.init], {}, 1)) == {}
  {
  }

  lemma ExploredGrows<S, I, O>(
    m: Model<S, I, O>, e: seq<Entry<I, O>>, n: nat, seen: set<Config<S>>, seen': set<Config<S>>, c: Config<S>, limit: int)
    requires WellFormed(e, n) && Explored(m, e, n, seen, c, limit) && seen <= seen'
    ensures Explored(m, e, n, seen', c, limit)
  {
    hide WellFormed, LeadsOn;
  }

  lemma {:induction false} StackGrows<S, I, O>(
    m: Model<S, I, O>, e: seq<Entry<I, O>>, n: nat, seen: set<Config<S>>, seen': set<Config<S>>,
    path: seq<int>, states: seq<S>, limit: int)
    requires WellFormed(e, n) && |states| == |path| + 1
    requires StackExplored(m, e, n, seen, path, states, limit) && seen <= seen'
    ensures StackExplored(m, e, n, seen', path, states, limit)
    decreases |path|
  {
    hide WellFormed, Explored;
    ExploredGrows(m, e, n, seen, seen', (Lin(e, path), Last(states)), limit);
    if path != [] {
      StackGrows(m, e, n, seen, seen', Front(path), Front(states), Last(path));
    }
  }

  /** Further on past entries that are linearized already, and past the call at `c`, if what it leads
      to is in the cache. */
  lemma ExploredFurther<S, I, O>(
    m: Model<S, I, O>, e: seq<Entry<I, O>>, n: nat, seen: set<Config<S>>, x: Config<S>, c: int, p: int)
    requires WellFormed(e, n) && Explored(m, e, n, seen, x, c) && IsNext(e, x.0, c, p)
    requires LeadsOn(m, e, n, x, c) ==> Successor(m, e, n, x, c) in seen
    ensures Explored(m, e, n, seen, x, p)
  {
    hide WellFormed, StepAt;
    forall q | q < p && LeadsOn(m, e, n, x, q)
      ensures Successor(m, e, n, x, q) in seen
    {
      assert q <= c;
    }
  }

  /** Moving past a call. */
  lemma AdvanceCovers<S, I, O>(m: Model<S, I, O>, e: seq<Entry<I, O>>, n: nat, st: State<S>, p: int)
    requires WellFormed(e, n) && |st.states| == |st.path| + 1 && Covering(m, e, n, st) && IsCall(e, st.pos)
    requires var (ok, s') := StepAt(m, e, n, st.pos, Last(st.states));
             ok ==> (Lin(e, st.path) + {e[st.pos].id}, s') in st.seen
    requires IsNext(e, Lin(e, st.path), st.pos, p)
    ensures Covering(m, e, n, st.(pos := p)) && Left(e, st.(pos := p)) == Left(e, st)
  {
    hide WellFormed, StepAt, Explored, IsNext, Lin;
    ExploredFurther(m, e, n, st.seen, (Lin(e, st.path), Last(st.states)), st.pos, p);
  }

  /** Taking the call under examination. */
  lemma PushCovers<S, I, O>(m: Model<S, I, O>, e: seq<Entry<I, O>>, n: nat, st: State<S>, st': State<S>, c: Config<S>)
    requires WellFormed(e, n) && |st.states| == |st.path| + 1 && Covering(m, e, n, st)
    requires c !in st.seen && IsNext(e, c.0, 0, st'.pos)
    requires st'.path == st.path + [st.pos] && st'.states == st.states + [c.1] && st'.seen == st.seen + {c}
    requires Lin(e, st'.path) == c.0 && PathConfigs(e, st.path, st.states) <= st.seen
    ensures Covering(m, e, n, st') && Left(e, st') == Left(e, st)
  {
    hide WellFormed, Explored, Lin;
    assert Front(st'.path) == st.path && Last(st'.path) == st.pos;
    assert Front(st'.states) == st.states && Last(st'.states) == c.1;
    NothingBefore(m, e, n, st'.seen, c, st'.pos);
    StackGrows(m, e, n, st.seen, st'.seen, st.path, st.states, st.pos);
    assert Left(e, st') == Left(e, st);
    forall x | x in Left(e, st')
      ensures Explored(m, e, n, st'.seen, x, |e|)
    {
      ExploredGrows(m, e, n, st.seen, st'.seen, x, |e|);
    }
  }

  /** Before the first remaining entry nothing leads on. */
  lemma NothingBefore<S, I, O>(m: Model<S, I, O>, e: seq<Entry<I, O>>, n: nat, seen: set<Config<S>>, c: Config<S>, p: int)
    requires WellFormed(e, n) && IsNext(e, c.0, 0, p)
    ensures Explored(m, e, n, seen, c, p)
  {
    hide WellFormed, StepAt;
  }

  /** Past a remaining return nothing leads on. */
  lemma NothingAfter<S, I, O>(m: Model<S, I, O>, e: seq<Entry<I, O>>, n: nat, seen: set<Config<S>>, c: Config<S>, p: int)
    requires WellFormed(e, n) && IsReturn(e, p) && e[p].id !in c.0 && Explored(m, e, n, seen, c, p)
    ensures Explored(m, e, n, seen, c, |e|)
  {
    hide WellFormed, StepAt;
    forall q | q < |e| && LeadsOn(m, e, n, c, q)
      ensures Successor(m, e, n, c, q) in seen
    {
      assert Candidate(e, c.0, q);
      assert q < p;
    }
  }

  /** Undoing the latest call, whose configuration is then left for good. */
  lemma PopCovers<S, I, O>(m: Model<S, I, O>, e: seq<Entry<I, O>>, n: nat, st: State<S>, st': State<S>)
    requires WellFormed(e, n) && |st.states| == |st.path| + 1 && Covering(m, e, n, st) && st.path != []
    requires IsReturn(e, st.pos) && e[st.pos].id !in Lin(e, st.path)
    requires Frames(m, e, n, st.path, st.states, st.pos) && PathConfigs(e, st.path, st.states) <= st.seen
    requires st' == State(Front(st.path), Front(st.states), st.seen, st'.pos)
    requires IsNext(e, Lin(e, Front(st.path)), Last(st.path), st'.pos)
    ensures Covering(m, e, n, st')
    ensures Left(e, st') <= Left(e, st) + {(Lin(e, st.path), Last(st.states))}
  {
    hide WellFormed, StepAt, Explored, IsNext;
    var top, below, c := (Lin(e, st.path), Last(st.states)), (Lin(e, st'.path), Last(st'.states)), Last(st.path);
    NothingAfter(m, e, n, st.seen, top, st.pos);
    assert top in PathConfigs(e, st.path, st.states);
    assert StackExplored(m, e, n, st.seen, st'.path, st'.states, c);
    assert LeadsOn(m, e, n, below, c) && Successor(m, e, n, below, c) == top;
    ExploredFurther(m, e, n, st.seen, below, c, st'.pos);
    assert StackExplored(m, e, n, st.seen, st'.path, st'.states, st'.pos);
    assert PathConfigs(e, st.path, st.states) == PathConfigs(e, st'.path, st'.states) + {top};
  }

  /** Every stack the search could have leads to a configuration that it has left. */
  lemma {:induction false} AllLeft<S, I, O>(
    m: Model<S, I, O>, e: seq<Entry<I, O>>, n: nat, left: set<Config<S>>, path: seq<int>, states: seq<S>, limit: int)
    requires WellFormed(e, n) && Frames(m, e, n, path, states, limit)
    requires Explored(m, e, n, left, ({}, m.init), |e|) && forall c | c in left :: Explored(m, e, n, left, c, |e|)
    ensures path != [] ==> (Lin(e, path), Last(states)) in left
    decreases |path|
  {
    hide WellFormed, StepAt, TriedBelow;
    if path != [] {
      var rest, before, c := Front(path), Front(states), Last(path);
      AllLeft(m, e, n, left, rest, before, c);
      var below := (Lin(e, rest), Last(before));
      assert Explored(m, e, n, left, below, |e|);
      assert LeadsOn(m, e, n, below, c) && Successor(m, e, n, below, c) == (Lin(e, path), Last(states));
    }
  }

  /** A search that stops at a return with nothing on its stack has left every configuration. */
  lemma RunsDry<S, I, O>(m: Model<S, I, O>, e: seq<Entry<I, O>>, n: nat, st: State<S>)
    requires WellFormed(e, n) && |st.states| == |st.path| + 1 && Covering(m, e, n, st)
    requires st.path == [] && st.states == [m.init] && IsReturn(e, st.pos)
    ensures Left(e, st) == st.seen && Explored(m, e, n, st.seen, ({}, m.init), |e|)
    ensures forall c | c in st.seen :: Explored(m, e, n, st.seen, c, |e|)
  {
    hide WellFormed, Explored;
    NothingAfter(m, e, n, st.seen, ({}, m.init), st.pos);
  }
}
