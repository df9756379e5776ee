/** Leader Completeness, on runs in which no follower accepts, within a term, a request that ends
    before one it already accepted, or a snapshot that ends before its log does. */
module RaftCompleteness {
  import opened Quorums
  import opened RaftServer
  import opened RaftCluster
  import opened RaftInvariant
  import opened RaftSteps

  /** Index `i` of term `t`'s leader log holds an entry of that term. */
  ghost predicate Own(h: History, t: nat, i: nat) {
    t in h.leaderLog && i < |h.leaderLog[t]| && h.leaderLog[t][i].term == t && t > 0
  }

  ghost predicate Acked(h: History, w: int, t: nat, i: nat) {
    (w, t) in h.acked && i <= h.acked[(w, t)]
  }

  /** Every leader of a later term, up to term `hi`, has term `t`'s entries up to `i`. */
  ghost predicate Kept(h: History, t: nat, i: nat, hi: int)
    requires t in h.leaderLog
  {
    forall u | u in h.leaderLog && t < u <= hi :: SameUpTo(h.leaderLog[t], h.leaderLog[u], i)
  }

  /** A server still holds what it acknowledged, as long as later leaders held it. */
  ghost predicate Holds(h: History, w: int, s: Server) {
    forall t: nat, i: nat | Own(h, t, i) && Acked(h, w, t, i) && Kept(h, t, i, s.term) :: SameUpTo(h.leaderLog[t], s.log, i)
  }

  /** And it held it when it voted in a later term. */
  ghost predicate HeldAtVote(h: History, w: int, u: nat)
    requires (w, u) in h.ballots
  {
    h.ballots[(w, u)].early ==>
      forall t: nat, i: nat | Own(h, t, i) && t < u && Acked(h, w, t, i) && Kept(h, t, i, u - 1) ::
        SameUpTo(h.leaderLog[t], h.ballots[(w, u)].voterLog, i)
  }

  ghost predicate HoldInv(c: Cluster) {
    && (forall w | 0 <= w < |c.servers| :: Holds(c.hist, w, c.servers[w]))
    && (forall w, u | (w, u) in c.hist.ballots :: HeldAtVote(c.hist, w, u))
  }

  // ----- later records say no more about earlier entries

  lemma OwnBefore(n: nat, h: History, h': History, i: int, w: int, t: nat, k: nat)
    requires HistoryInv(n, h) && Extends(h, h', i) && Own(h', t, k) && Acked(h, w, t, k)
    ensures Own(h, t, k) && SameUpTo(h.leaderLog[t], h'.leaderLog[t], k)
  {
    assert AckInv(n, h, w, t);
    assert GrewInTerm(h.leaderLog[t], h'.leaderLog[t], t);
  }

  lemma KeptBefore(n: nat, h: History, h': History, i: int, t: nat, k: nat, hi: int, lo: int)
    requires HistoryInv(n, h) && Extends(h, h', i) && Own(h, t, k) && Own(h', t, k) && Kept(h', t, k, hi) && lo <= hi
    ensures Kept(h, t, k, lo)
  {
    hide HistoryInv;
    forall u | u in h.leaderLog && t < u <= lo
      ensures SameUpTo(h.leaderLog[t], h.leaderLog[u], k)
    {
      assert GrewInTerm(h.leaderLog[t], h'.leaderLog[t], t);
      assert GrewInTerm(h.leaderLog[u], h'.leaderLog[u], u);
      assert SameUpTo(h'.leaderLog[t], h'.leaderLog[u], k);
    }
  }

  /** Nothing new acknowledged, the log untouched, the term no lower: what was held is held. */
  lemma StillHolds(n: nat, h: History, h': History, i: int, w: int, s: Server, s': Server)
    requires HistoryInv(n, h) && Extends(h, h', i) && Holds(h, w, s)
    requires s'.log == s.log && s.term <= s'.term
    requires forall t | (w, t) in h'.acked :: (w, t) in h.acked && h.acked[(w, t)] == h'.acked[(w, t)]
    ensures Holds(h', w, s')
  {
    hide HistoryInv, Extends;
    forall t: nat, k: nat | Own(h', t, k) && Acked(h', w, t, k) && Kept(h', t, k, s'.term)
      ensures SameUpTo(h'.leaderLog[t], s'.log, k)
    {
      OwnBefore(n, h, h', i, w, t, k);
      KeptBefore(n, h, h', i, t, k, s'.term, s.term);
      assert SameUpTo(h.leaderLog[t], s.log, k);
    }
  }

  lemma StillHeldAtVote(n: nat, h: History, h': History, i: int, w: int, u: nat)
    requires HistoryInv(n, h) && Extends(h, h', i) && (w, u) in h.ballots && HeldAtVote(h, w, u)
    requires forall t | (w, t) in h'.acked && t < u :: (w, t) in h.acked && h.acked[(w, t)] == h'.acked[(w, t)]
    ensures (w, u) in h'.ballots && HeldAtVote(h', w, u)
  {
    var b := h.ballots[(w, u)];
    assert h'.ballots[(w, u)] == b;
    hide HistoryInv, Extends;
    if b.early {
      forall t: nat, k: nat | Own(h', t, k) && t < u && Acked(h', w, t, k) && Kept(h', t, k, u - 1)
        ensures SameUpTo(h'.leaderLog[t], b.voterLog, k)
      {
        OwnBefore(n, h, h', i, w, t, k);
        KeptBefore(n, h, h', i, t, k, u - 1, u - 1);
        assert SameUpTo(h.leaderLog[t], b.voterLog, k);
      }
    }
  }

  /** A fresh early vote is cast with a log that holds everything acknowledged and kept. */
  lemma VoteHolds(n: nat, h: History, h': History, i: int, s: Server, u: nat)
    requires HistoryInv(n, h) && Extends(h, h', i) && Holds(h, i, s) && s.term <= u
    requires (i, u) !in h.ballots && (i, u) in h'.ballots
    requires h'.ballots[(i, u)].voterLog == s.log && (h'.ballots[(i, u)].early ==> u !in h.leaderLog)
    requires h'.acked == h.acked && h'.leaderLog == h.leaderLog
    ensures HeldAtVote(h', i, u)
  {
    hide HistoryInv, Extends;
    if h'.ballots[(i, u)].early {
      forall t: nat, k: nat | Own(h', t, k) && t < u && Acked(h', i, t, k) && Kept(h', t, k, u - 1)
        ensures SameUpTo(h'.leaderLog[t], s.log, k)
      {
        assert Own(h, t, k) && Acked(h, i, t, k);
        assert Kept(h, t, k, s.term);
      }
    }
  }

  /** Accepting a request in order: its end is past everything acknowledged in that term, and past
      every earlier entry the leader holds. */
  lemma AcceptHolds(n: nat, h: History, h': History, i: int, s: Server, args: AppendEntriesArgs, log: seq<LogEntry>)
    requires HistoryInv(n, h) && Holds(h, i, s) && AppendInv(h, i, args) && s.term <= args.term
    requires forall t | (i, t) in h.acked :: t <= s.term
    requires (i, args.term) in h.acked ==> End(args) >= h.acked[(i, args.term)]
    requires h' == h.(acked := Acknowledge(h.acked, i, args.term, End(args)))
    requires log == h.leaderLog[args.term][..End(args) + 1]
    ensures Holds(h', i, s.(term := args.term, log := log))
  {
    hide HistoryInv;
    var ll := h.leaderLog;
    forall t: nat, k: nat | Own(h', t, k) && Acked(h', i, t, k) && Kept(h', t, k, args.term)
      ensures SameUpTo(ll[t], log, k)
    {
      if t == args.term {
        assert k <= End(args);
      } else {
        assert (i, t) in h.acked && t < args.term;
        assert SameUpTo(ll[t], ll[args.term], k);
        assert ll[args.term][k].term == t;
        assert k <= End(args);
      }
    }
  }

  /** Installing a snapshot that ends no earlier than the log: nothing held is lost. */
  lemma InstallHolds(n: nat, h: History, h': History, i: int, s: Server, install: InstallSnapshotArgs)
    requires Holds(h, i, s) && InstallInv(h, i, install) && s.term <= install.term
    requires |s.log| - 1 <= install.lastIncludedIndex && forall t | (i, t) in h.acked :: t <= s.term
    requires h' == h.(acked := Acknowledge(h.acked, i, install.term, install.lastIncludedIndex))
    ensures Holds(h', i, s.(term := install.term, log := install.snapshot))
  {
    var ll := h.leaderLog;
    forall t: nat, k: nat | Own(h', t, k) && Acked(h', i, t, k) && Kept(h', t, k, install.term)
      ensures SameUpTo(ll[t], install.snapshot, k)
    {
      if Acked(h, i, t, k) {
        assert Own(h, t, k) && Kept(h, t, k, s.term);
        assert SameUpTo(ll[t], s.log, k);
      }
      assert t < install.term ==> SameUpTo(ll[t], ll[install.term], k);
    }
  }

  /** A snapshot the server already covers: its log agrees with it. */
  lemma RefusedHolds(n: nat, h: History, h': History, i: int, s: Server, install: InstallSnapshotArgs)
    requires Holds(h, i, s) && install.term in h.leaderLog && s.term <= install.term
    requires SameUpTo(h.leaderLog[install.term], s.log, install.lastIncludedIndex)
    requires h' == h.(acked := Acknowledge(h.acked, i, install.term, install.lastIncludedIndex))
    ensures Holds(h', i, s.(term := install.term))
  {
    var ll := h.leaderLog;
    forall t: nat, k: nat | Own(h', t, k) && Acked(h', i, t, k) && Kept(h', t, k, install.term)
      ensures SameUpTo(ll[t], s.log, k)
    {
      if Acked(h, i, t, k) {
        assert Own(h, t, k) && Kept(h, t, k, s.term);
      }
    }
  }

  /** Whatever log agrees with the leader's own holds what the leader acknowledged. */
  lemma OwnLogHolds(n: nat, h: History, h': History, i: int, s: Server, s': Server)
    requires HistoryInv(n, h) && Extends(h, h', i) && Holds(h, i, s)
    requires s'.term == s.term && s.log <= s'.log && s.term in h'.leaderLog && s'.log == h'.leaderLog[s.term]
    requires forall t | (i, t) in h'.acked && t != s.term :: (i, t) in h.acked && h.acked[(i, t)] == h'.acked[(i, t)]
    ensures Holds(h', i, s')
  {
    hide HistoryInv, Extends;
    forall t: nat, k: nat | Own(h', t, k) && Acked(h', i, t, k) && Kept(h', t, k, s'.term)
      ensures SameUpTo(h'.leaderLog[t], s'.log, k)
    {
      if t != s.term {
        OwnBefore(n, h, h', i, i, t, k);
        KeptBefore(n, h, h', i, t, k, s'.term, s.term);
        assert SameUpTo(h.leaderLog[t], s.log, k);
      }
    }
  }

  // ----- Leader Completeness

  /** `(t, i)` is committed: an entry of the leader's own term that a majority acknowledged. */
  ghost predicate Committed(n: nat, h: History, t: nat, i: nat, q: set<int>) {
    Own(h, t, i) && Majority(n, q) && forall w | w in q :: Acked(h, w, t, i)
  }

  /** Comparing logs as an election does transfers an entry from the voter to the candidate. */
  lemma UpToDateHolds(
    ll: Logs, t: nat, i: nat, mine: seq<LogEntry>, theirs: seq<LogEntry>)
    requires t in ll && i < |ll[t]| && ll[t][i].term == t && t > 0
    requires LogOk(ll, mine) && LogOk(ll, theirs) && SameUpTo(ll[t], mine, i)
    requires !MoreUpToDate(mine, LastIndex(theirs), LastTerm(theirs))
    requires LastTerm(theirs) != t && LastTerm(theirs) in ll ==> SameUpTo(ll[t], ll[LastTerm(theirs)], i)
    ensures SameUpTo(ll[t], theirs, i)
  {
    var last, u := LastIndex(theirs), LastTerm(theirs);
    assert mine[i].term <= LastTerm(mine);
    assert u >= t;
    if u == LastTerm(mine) {
      SameTermSameLog(ll, mine, theirs, LastIndex(mine)) by {
        assert SameUpTo(mine, ll[u], LastIndex(mine)) && SameUpTo(theirs, ll[u], last);
      }
    } else {
      assert u > t && last > 0;
      assert SameUpTo(theirs, ll[u], last);
      assert ll[u][i].term == t;
      assert i <= last;
    }
  }

  ghost predicate AllHeldAtVotes(h: History) {
    forall w, u | (w, u) in h.ballots :: HeldAtVote(h, w, u)
  }

  /** Leader Completeness: a committed entry, with everything before it, is in the log of the leader
      of every later term. */
  lemma {:induction false} LeaderCompleteness(n: nat, h: History, t: nat, i: nat, q: set<int>, u: nat)
    requires HistoryInv(n, h) && AllHeldAtVotes(h)
    requires Committed(n, h, t, i, q) && u in h.leaderLog && t < u
    ensures SameUpTo(h.leaderLog[t], h.leaderLog[u], i)
    decreases u
  {
    hide LogOk, SameUpTo, MoreUpToDate, TermsUpTo;
    assert LeaderInv(n, h, u);
    var leader := h.elections[u].leader;
    var w := MajoritiesMeet(n, q, h.elections[u].quorum);
    forall v | v in h.leaderLog && t < v <= u - 1
      ensures SameUpTo(h.leaderLog[t], h.leaderLog[v], i)
    {
      LeaderCompleteness(n, h, t, i, q, v);
    }
    assert Kept(h, t, i, u - 1) && Acked(h, w, t, i);
    assert HeldAtVote(h, w, u);
    assert SameUpTo(h.leaderLog[t], h.ballots[(w, u)].voterLog, i);
    OwnBallot(n, h, u);
    assert BallotInv(n, h, w, u) && BallotInv(n, h, leader, u);
    CandidateHolds(n, h, t, i, w, leader, u);
    PrefixSame(h.leaderLog[t], h.ballots[(leader, u)].voterLog, h.leaderLog[u], i);
  }

  lemma PrefixSame(a: seq<LogEntry>, b: seq<LogEntry>, c: seq<LogEntry>, i: int)
    requires SameUpTo(a, b, i) && b <= c
    ensures SameUpTo(a, c, i)
  {
  }

  lemma CandidateHolds(n: nat, h: History, t: nat, i: nat, w: int, leader: int, u: nat)
    requires (w, u) in h.ballots && (leader, u) in h.ballots && h.ballots[(w, u)].candidate == leader
    requires BallotInv(n, h, w, u) && BallotInv(n, h, leader, u)
    requires Own(h, t, i) && Kept(h, t, i, u - 1) && SameUpTo(h.leaderLog[t], h.ballots[(w, u)].voterLog, i)
    ensures SameUpTo(h.leaderLog[t], h.ballots[(leader, u)].voterLog, i)
  {
    hide LogOk, SameUpTo, MoreUpToDate;
    var mine, theirs := h.ballots[(w, u)].voterLog, h.ballots[(leader, u)].voterLog;
    assert LastTerm(theirs) <= u - 1;
    SameItself(h.leaderLog[t], i);
    if LastTerm(theirs) != t && LastTerm(theirs) in h.leaderLog {
      NotEarlier(h.leaderLog, t, i, mine, theirs);
    }
    UpToDateHolds(h.leaderLog, t, i, mine, theirs);
  }

  lemma SameItself(log: seq<LogEntry>, i: nat)
    requires i < |log|
    ensures SameUpTo(log, log, i)
  {
  }

  lemma NotEarlier(ll: Logs, t: nat, i: nat, mine: seq<LogEntry>, theirs: seq<LogEntry>)
    requires t in ll && i < |ll[t]| && ll[t][i].term == t
    requires LogOk(ll, mine) && theirs != [] && SameUpTo(ll[t], mine, i)
    requires !MoreUpToDate(mine, LastIndex(theirs), LastTerm(theirs))
    ensures LastTerm(theirs) >= t
  {
    assert mine[i].term <= LastTerm(mine);
  }

  // ----- every step in order keeps what is held

  lemma HoldsSame(h: History, w: int, s: Server, s': Server)
    requires Holds(h, w, s) && s'.log == s.log && s'.term == s.term
    ensures Holds(h, w, s')
  {
  }

  /** Steps other than appending leave the log alone and never lower the term. */
  lemma LogKept(c: Cluster, step: Step)
    requires Inv(c) && Enabled(c, step)
    requires step.ReceiveAppendRequest? ==> !AppendEntries(c.servers[step.i], step.args).1.success
    requires step.ClientStart? ==> c.servers[step.i].role != Leader
    requires step.ReceiveInstallRequest? ==> !Replaces(c.servers[step.i], step.install)
    ensures NextServer(c, step).log == c.servers[step.i].log
    ensures NextServer(c, step).term >= c.servers[step.i].term
  {
    hide LogOk, HistoryInv, MessageInv, MajorityIndex, MoreUpToDate, BackOff;
    assert ServerInv(|c.servers|, c.hist, step.i, c.servers[step.i]);
  }

  /** A snapshot that the server refuses because it covers as much is part of its log. */
  ghost predicate RefusedIsHeld(c: Cluster, step: Step) {
    step.ReceiveInstallRequest? && 0 <= step.i < |c.servers| && step.install.term in c.hist.leaderLog
    && step.install.term >= c.servers[step.i].term && !Replaces(c.servers[step.i], step.install) ==>
      SameUpTo(c.hist.leaderLog[step.install.term], c.servers[step.i].log, step.install.lastIncludedIndex)
  }

  lemma InstallActs(c: Cluster, step: Step)
    requires Inv(c) && HoldInv(c) && Enabled(c, step) && InstallsInOrder(c, step) && RefusedIsHeld(c, step)
    requires step.ReceiveInstallRequest? && step.install.term >= c.servers[step.i].term
    ensures Holds(NextHistory(c, step), step.i, NextServer(c, step))
  {
    hide LogOk, HistoryInv, Extends, Holds, HeldAtVote;
    var n, h, h', i := |c.servers|, c.hist, NextHistory(c, step), step.i;
    var s, s' := c.servers[i], NextServer(c, step);
    assert ServerInv(n, h, i, s) && Holds(h, i, s) && MessageInv(n, h, InstallRequest(i, step.install));
    if Replaces(s, step.install) {
      InstallHolds(n, h, h', i, s, step.install);
      HoldsSame(h', i, s.(term := step.install.term, log := step.install.snapshot), s');
    } else {
      RefusedHolds(n, h, h', i, s, step.install);
      HoldsSame(h', i, s.(term := step.install.term), s');
    }
  }

  lemma ActingHolds(c: Cluster, step: Step)
    requires Inv(c) && HoldInv(c) && Enabled(c, step) && InOrder(c, step) && RefusedIsHeld(c, step)
    requires Extends(c.hist, NextHistory(c, step), step.i)
    requires ServerInv(|c.servers|, NextHistory(c, step), step.i, NextServer(c, step))
    ensures Holds(NextHistory(c, step), step.i, NextServer(c, step))
  {
    hide LogOk, HistoryInv, Extends, Holds, HeldAtVote;
    var n, h, h', i := |c.servers|, c.hist, NextHistory(c, step), step.i;
    var s, s' := c.servers[i], NextServer(c, step);
    assert ServerInv(n, h, i, s) && Holds(h, i, s);
    if step.ReceiveAppendRequest? && AppendEntries(s, step.args).1.success {
      assert MessageInv(n, h, AppendRequest(i, step.args));
      AcceptedServer(n, h, i, s, step.args);
      AcceptHolds(n, h, h', i, s, step.args, s'.log);
      HoldsSame(h', i, s.(term := step.args.term, log := s'.log), s');
    } else if step.ReceiveInstallRequest? && step.install.term >= s.term {
      InstallActs(c, step);
    } else if (step.ClientStart? || step.Replicate?) && s.role == Leader {
      OwnLogHolds(n, h, h', i, s, s');
    } else {
      LogKept(c, step);
      StillHolds(n, h, h', i, i, s, s');
    }
  }

  /** A server acknowledges only in its current term or a later one. */
  lemma AckedLate(c: Cluster, step: Step, t: nat)
    requires Inv(c) && Enabled(c, step) && t < c.servers[step.i].term
    requires (step.i, t) in NextHistory(c, step).acked
    ensures (step.i, t) in c.hist.acked && c.hist.acked[(step.i, t)] == NextHistory(c, step).acked[(step.i, t)]
  {
    hide LogOk, HistoryInv, ServerInv, MessageInv, MajorityIndex, MoreUpToDate, BackOff;
  }

  /** A new ballot is the acting server's, in its current term or a later one, with its log. */
  lemma NewBallot(c: Cluster, step: Step, w: int, u: nat)
    requires Inv(c) && Enabled(c, step)
    requires (w, u) in NextHistory(c, step).ballots && (w, u) !in c.hist.ballots
    ensures w == step.i && c.servers[w].term <= u
    ensures var b := NextHistory(c, step).ballots[(w, u)];
            b.voterLog == c.servers[w].log && (b.early ==> u !in c.hist.leaderLog)
    ensures NextHistory(c, step).acked == c.hist.acked && NextHistory(c, step).leaderLog == c.hist.leaderLog
  {
    hide LogOk, HistoryInv, ServerInv, MessageInv, MajorityIndex, MoreUpToDate, BackOff;
  }

  lemma BallotsHold(c: Cluster, step: Step, w: int, u: nat)
    requires Inv(c) && HoldInv(c) && Enabled(c, step)
    requires Extends(c.hist, NextHistory(c, step), step.i) && (w, u) in NextHistory(c, step).ballots
    ensures HeldAtVote(NextHistory(c, step), w, u)
  {
    hide LogOk, HistoryInv, HeldAtVote, Holds, NextHistory, MessageInv;
    var n, h, h', i := |c.servers|, c.hist, NextHistory(c, step), step.i;
    if (w, u) in h.ballots {
      assert ServerInv(n, h, i, c.servers[i]);
      forall t | (w, t) in h'.acked && t < u
        ensures (w, t) in h.acked && h.acked[(w, t)] == h'.acked[(w, t)]
      {
        if w == i {
          AckedLate(c, step, t);
        }
      }
      StillHeldAtVote(n, h, h', i, w, u);
    } else {
      NewBallot(c, step, w, u);
      VoteHolds(n, h, h', i, c.servers[i], u);
    }
  }

  lemma OthersHold(c: Cluster, step: Step, w: int)
    requires Inv(c) && HoldInv(c) && Enabled(c, step) && 0 <= w < |c.servers| && w != step.i
    requires Extends(c.hist, NextHistory(c, step), step.i)
    ensures Holds(NextHistory(c, step), w, c.servers[w])
  {
    hide LogOk, HistoryInv, Holds, HeldAtVote, NextHistory, MessageInv, ServerInv;
    StillHolds(|c.servers|, c.hist, NextHistory(c, step), step.i, w, c.servers[w], c.servers[w]);
  }

  lemma HoldInitially(n: nat)
    ensures HoldInv(Init(n))
  {
  }

  /** Every step in order keeps what servers acknowledged. */
  lemma HoldStep(c: Cluster, step: Step)
    requires Inv(c) && HoldInv(c) && Enabled(c, step) && InOrder(c, step) && RefusedIsHeld(c, step)
    ensures HoldInv(Next(c, step))
  {
    hide Inv, RefusedIsHeld, Holds, HeldAtVote, NextHistory, NextServer, NewMessages, InOrder, Extends, ServerInv, HistoryInv, MessageInv;
    StepLocal(c, step);
    var c' := Next(c, step);
    forall w | 0 <= w < |c'.servers|
      ensures Holds(c'.hist, w, c'.servers[w])
    {
      if w == step.i {
        ActingHolds(c, step);
      } else {
        OthersHold(c, step, w);
      }
    }
    forall w, u | (w, u) in c'.hist.ballots
      ensures HeldAtVote(c'.hist, w, u)
    {
      BallotsHold(c, step, w, u);
    }
  }
}
