/** What every step of every run keeps, whatever the network does: enough for Election Safety and
    Log Matching. */
module RaftInvariant {
  import opened Quorums
  import opened RaftServer
  import opened RaftCluster

  type Logs = map<nat, seq<LogEntry>>

  /** The logs hold index `i` and are identical up to it. */
  ghost predicate SameUpTo(a: seq<LogEntry>, b: seq<LogEntry>, i: int) {
    0 <= i < |a| && i < |b| && forall k | 0 <= k <= i :: a[k] == b[k]
  }

  /** Every entry stands where its term's leader put it, after what that leader had before it. */
  ghost predicate LogOk(ll: Logs, log: seq<LogEntry>) {
    && log != [] && log[0] == Dummy()
    && (forall k | 0 < k < |log| :: log[k].term in ll && SameUpTo(log, ll[log[k].term], k))
    && (forall j, k | 0 <= j < k < |log| :: log[j].term <= log[k].term)
    && (forall k | 0 < k < |log| :: log[k].term > 0)
  }

  ghost predicate TermsUpTo(log: seq<LogEntry>, term: int) {
    forall k | 0 <= k < |log| :: log[k].term <= term
  }

  // ----- the parts of the invariant

  /** A vote goes to a candidate of that term whose log was no less up to date. */
  ghost predicate BallotInv(n: nat, h: History, v: int, t: nat)
    requires (v, t) in h.ballots
  {
    var b := h.ballots[(v, t)];
    && 0 <= v < n && 0 <= b.candidate < n && t > 0 && LogOk(h.leaderLog, b.voterLog)
    && (b.early || t in h.leaderLog)
    && (b.candidate, t) in h.ballots
    && (var own := h.ballots[(b.candidate, t)];
        && own.candidate == b.candidate && own.voterLog != [] && TermsUpTo(own.voterLog, t - 1)
        && !MoreUpToDate(b.voterLog, LastIndex(own.voterLog), LastTerm(own.voterLog)))
  }

  /** A leader has the votes of a majority, cast before the term had a leader, and its log extends
      the one it stood for election with by entries of its own term. */
  ghost predicate LeaderInv(n: nat, h: History, t: nat)
    requires t in h.leaderLog
  {
    && t > 0 && t in h.elections
    && (var e := h.elections[t];
        && 0 <= e.leader < n && Majority(n, e.quorum)
        && (forall v | v in e.quorum :: (v, t) in h.ballots && h.ballots[(v, t)].candidate == e.leader && h.ballots[(v, t)].early)
        && (e.leader, t) in h.ballots
        && (var base := h.ballots[(e.leader, t)].voterLog;
            && base <= h.leaderLog[t]
            && forall k | |base| <= k < |h.leaderLog[t]| :: h.leaderLog[t][k].term == t))
  }

  /** The request carries a slice of its term's leader log, up to the end that log had then. */
  ghost predicate AppendInv(h: History, to: int, args: AppendEntriesArgs) {
    && args.term in h.leaderLog && args.term in h.elections
    && args.leaderId == h.elections[args.term].leader && to != args.leaderId
    && (var log := h.leaderLog[args.term];
        && 0 <= args.prevLogIndex && args.prevLogIndex + |args.entries| < |log|
        && log[args.prevLogIndex].term == args.prevLogTerm
        && (forall k | 0 <= k < |args.entries| :: args.entries[k] == log[args.prevLogIndex + 1 + k])
        && (forall k | args.prevLogIndex + |args.entries| < k < |log| :: log[k].term == args.term))
  }

  /** The snapshot covers a prefix of its term's leader log. */
  ghost predicate InstallInv(h: History, to: int, install: InstallSnapshotArgs) {
    && install.term in h.leaderLog && install.term in h.elections
    && install.leaderId == h.elections[install.term].leader && to != install.leaderId
    && install.snapshot <= h.leaderLog[install.term] && |install.snapshot| == install.lastIncludedIndex + 1
    && LastTerm(install.snapshot) == install.lastIncludedTerm
  }

  ghost predicate MessageInv(n: nat, h: History, m: Message) {
    match m
    case VoteRequest(to, ask) =>
      && (ask.candidateId, ask.term) in h.ballots
      && (var own := h.ballots[(ask.candidateId, ask.term)];
          && own.candidate == ask.candidateId && own.voterLog != []
          && ask.lastLogIndex == LastIndex(own.voterLog) && ask.lastLogTerm == LastTerm(own.voterLog))
    case VoteResponse(from, ask, vote) =>
      && 0 <= from < n
      && (vote.voteGranted ==> (from, ask.term) in h.ballots && h.ballots[(from, ask.term)].candidate == ask.candidateId)
    case AppendRequest(to, args) => 0 <= to < n && AppendInv(h, to, args)
    case AppendResponse(from, args, reply) =>
      && 0 <= from < n && AppendInv(h, from, args)
      && (reply.success ==> (from, args.term) in h.acked && h.acked[(from, args.term)] >= End(args))
    case InstallRequest(to, install) => 0 <= to < n && InstallInv(h, to, install)
    case InstallResponse(from, install, term) =>
      && 0 <= from < n && InstallInv(h, from, install)
      && (term <= install.term ==>
            (from, install.term) in h.acked && h.acked[(from, install.term)] >= install.lastIncludedIndex)
  }

  /** Acknowledged indexes lie in the leader's log. */
  ghost predicate AckInv(n: nat, h: History, who: int, t: nat)
    requires (who, t) in h.acked
  {
    0 <= who < n && t in h.leaderLog && h.acked[(who, t)] < |h.leaderLog[t]|
  }

  ghost predicate Recorded(h: History, who: int, t: nat, index: int) {
    index == 0 || ((who, t) in h.acked && index <= h.acked[(who, t)])
  }

  /** One server: its disk is current, its log is sound, its vote and its role are on record. */
  ghost predicate ServerInv(n: nat, h: History, i: int, s: Server) {
    && 0 <= i < n && BooksInRange(s, n)
    && s.disk == Disk(s.term, s.votedFor, s.log, s.snapIdx)
    && LogOk(h.leaderLog, s.log) && TermsUpTo(s.log, s.term)
    && (forall t | (i, t) in h.ballots :: t <= s.term)
    && (forall t | (i, t) in h.acked :: t <= s.term)
    && (forall t | t in h.elections && h.elections[t].leader == i :: t <= s.term)
    && (if s.votedFor == NOBODY then (i, s.term) !in h.ballots
        else (i, s.term) in h.ballots && h.ballots[(i, s.term)].candidate == s.votedFor)
    && (s.term in h.elections && h.elections[s.term].leader == i ==>
          s.term in h.leaderLog && s.log == h.leaderLog[s.term])
    && (s.role == Candidate ==> CandidateInv(n, h, i, s))
    && (s.role == Leader ==>
          && s.term in h.elections && h.elections[s.term].leader == i
          && forall p | 0 <= p < n :: Recorded(h, p, s.term, s.matchIndex[p]))
  }

  ghost predicate CandidateInv(n: nat, h: History, i: int, s: Server) {
    && (i, s.term) in h.ballots && h.ballots[(i, s.term)].candidate == i && h.ballots[(i, s.term)].voterLog == s.log
    && (s.term in h.elections ==> h.elections[s.term].leader != i)
    && (forall v | v in s.votes :: 0 <= v < n && (v, s.term) in h.ballots && h.ballots[(v, s.term)].candidate == i)
  }

  ghost predicate HistoryInv(n: nat, h: History) {
    && (forall v, t | (v, t) in h.ballots :: BallotInv(n, h, v, t))
    && (forall t | t in h.leaderLog :: LeaderInv(n, h, t))
    && (forall t | t in h.elections :: t in h.leaderLog)
    && (forall w, t | (w, t) in h.acked :: AckInv(n, h, w, t))
  }

  ghost predicate Inv(c: Cluster) {
    var n := |c.servers|;
    && HistoryInv(n, c.hist)
    && (forall i | 0 <= i < n :: ServerInv(n, c.hist, i, c.servers[i]))
    && (forall m | m in c.net :: MessageInv(n, c.hist, m))
  }

  // ----- histories grow

  /** Nothing on record is lost; whatever is new or longer is about server `i`. */
  ghost predicate Extends(h: History, h': History, i: int) {
    && (forall v, t | (v, t) in h.ballots :: (v, t) in h'.ballots && h'.ballots[(v, t)] == h.ballots[(v, t)])
    && (forall v, t | (v, t) in h'.ballots && (v, t) !in h.ballots :: v == i)
    && (forall t | t in h.elections :: t in h'.elections && h'.elections[t] == h.elections[t])
    && (forall t | t in h'.elections && t !in h.elections :: h'.elections[t].leader == i)
    && (forall t | t in h.leaderLog :: t in h'.leaderLog && GrewInTerm(h.leaderLog[t], h'.leaderLog[t], t))
    && (forall t | t in h.leaderLog && h'.leaderLog[t] != h.leaderLog[t] :: t in h.elections && h.elections[t].leader == i)
    && (forall w, t | (w, t) in h.acked :: (w, t) in h'.acked && h.acked[(w, t)] <= h'.acked[(w, t)])
    && (forall w, t | (w, t) in h'.acked && ((w, t) !in h.acked || h.acked[(w, t)] < h'.acked[(w, t)]) :: w == i)
  }

  ghost predicate GrewInTerm(log: seq<LogEntry>, log': seq<LogEntry>, t: nat) {
    log <= log' && forall k | |log| <= k < |log'| :: log'[k].term == t
  }

  ghost predicate LogsGrow(ll: Logs, ll': Logs) {
    forall t | t in ll :: t in ll' && ll[t] <= ll'[t]
  }

  lemma LogOkGrows(ll: Logs, ll': Logs, log: seq<LogEntry>)
    requires LogOk(ll, log) && LogsGrow(ll, ll')
    ensures LogOk(ll', log)
  {
    forall k | 0 < k < |log|
      ensures log[k].term in ll' && SameUpTo(log, ll'[log[k].term], k)
    {
      assert SameUpTo(log, ll[log[k].term], k);
    }
  }

  lemma LogOkPrefix(ll: Logs, log: seq<LogEntry>, pre: seq<LogEntry>)
    requires LogOk(ll, log) && pre <= log && pre != []
    ensures LogOk(ll, pre)
  {
    forall k | 0 < k < |pre|
      ensures pre[k].term in ll && SameUpTo(pre, ll[pre[k].term], k)
    {
      assert pre[k] == log[k] && SameUpTo(log, ll[log[k].term], k);
    }
  }

  lemma ExtendsLogs(h: History, h': History, i: int)
    requires Extends(h, h', i)
    ensures LogsGrow(h.leaderLog, h'.leaderLog)
  {
  }

  lemma BallotGrows(n: nat, h: History, h': History, i: int, v: int, t: nat)
    requires Extends(h, h', i) && (v, t) in h.ballots && BallotInv(n, h, v, t)
    ensures (v, t) in h'.ballots && BallotInv(n, h', v, t)
  {
    ExtendsLogs(h, h', i);
    LogOkGrows(h.leaderLog, h'.leaderLog, h.ballots[(v, t)].voterLog);
  }

  lemma LeaderGrows(n: nat, h: History, h': History, i: int, t: nat)
    requires Extends(h, h', i) && t in h.leaderLog && LeaderInv(n, h, t)
    ensures t in h'.leaderLog && LeaderInv(n, h', t)
  {
    var base := h.ballots[(h.elections[t].leader, t)].voterLog;
    assert GrewInTerm(h.leaderLog[t], h'.leaderLog[t], t);
    forall k | |base| <= k < |h'.leaderLog[t]|
      ensures h'.leaderLog[t][k].term == t
    {
      if k < |h.leaderLog[t]| {
        assert h'.leaderLog[t][k] == h.leaderLog[t][k];
      }
    }
  }

  lemma AppendGrows(h: History, h': History, i: int, to: int, args: AppendEntriesArgs)
    requires Extends(h, h', i) && AppendInv(h, to, args)
    ensures AppendInv(h', to, args)
  {
    var log, log' := h.leaderLog[args.term], h'.leaderLog[args.term];
    assert GrewInTerm(log, log', args.term);
    forall k | args.prevLogIndex + |args.entries| < k < |log'|
      ensures log'[k].term == args.term
    {
      if k < |log| {
        assert log'[k] == log[k];
      }
    }
  }

  lemma MessageGrows(n: nat, h: History, h': History, i: int, m: Message)
    requires Extends(h, h', i) && MessageInv(n, h, m)
    ensures MessageInv(n, h', m)
  {
    if m.AppendRequest? {
      AppendGrows(h, h', i, m.to, m.args);
    } else if m.AppendResponse? {
      AppendGrows(h, h', i, m.from, m.args);
    } else if m.InstallRequest? || m.InstallResponse? {
      InstallGrows(h, h', i, if m.InstallRequest? then m.to else m.from, m.install);
    }
  }

  lemma InstallGrows(h: History, h': History, i: int, to: int, install: InstallSnapshotArgs)
    requires Extends(h, h', i) && InstallInv(h, to, install)
    ensures InstallInv(h', to, install)
  {
    assert GrewInTerm(h.leaderLog[install.term], h'.leaderLog[install.term], install.term);
  }

  lemma AckGrows(n: nat, h: History, h': History, i: int, w: int, t: nat)
    requires Extends(h, h', i) && (w, t) in h'.acked && (w, t) in h.acked && h'.acked[(w, t)] == h.acked[(w, t)]
    requires AckInv(n, h, w, t)
    ensures AckInv(n, h', w, t)
  {
    assert GrewInTerm(h.leaderLog[t], h'.leaderLog[t], t);
  }

  /** A step of server `i` leaves the invariant of every other server alone. */
  lemma OthersKeep(n: nat, h: History, h': History, i: int, j: int, s: Server)
    requires Extends(h, h', i) && i != j && ServerInv(n, h, j, s)
    ensures ServerInv(n, h', j, s)
  {
    hide LogOk, TermsUpTo;
    ExtendsLogs(h, h', i);
    LogOkGrows(h.leaderLog, h'.leaderLog, s.log);
    if s.role == Leader {
      forall p | 0 <= p < n
        ensures Recorded(h', p, s.term, s.matchIndex[p])
      {
        assert Recorded(h, p, s.term, s.matchIndex[p]);
      }
    }
  }

  // ----- facts used by the steps

  /** At most one leader per term: two majorities of the same term share a voter, who votes once. */
  lemma OneLeaderPerTerm(n: nat, h: History, t: nat, i: int, votes: set<int>)
    requires HistoryInv(n, h) && t in h.leaderLog && Majority(n, votes)
    requires forall v | v in votes :: (v, t) in h.ballots && h.ballots[(v, t)].candidate == i
    ensures h.elections[t].leader == i
  {
    assert LeaderInv(n, h, t);
    var v := MajoritiesMeet(n, h.elections[t].quorum, votes);
  }

  lemma ExtendedLogOk(ll: Logs, base: seq<LogEntry>, log: seq<LogEntry>, t: nat)
    requires LogOk(ll, base) && TermsUpTo(base, t - 1) && base <= log && t > 0
    requires forall k | |base| <= k < |log| :: log[k].term == t
    requires t in ll && log <= ll[t]
    ensures LogOk(ll, log) && TermsUpTo(log, t)
  {
    assert forall k | 0 <= k < |base| :: log[k] == base[k];
    forall k | 0 < k < |log|
      ensures log[k].term in ll && SameUpTo(log, ll[log[k].term], k) && log[k].term > 0
    {
      if k < |base| {
        assert SameUpTo(base, ll[base[k].term], k);
      }
    }
    forall j, k | 0 <= j < k < |log|
      ensures log[j].term <= log[k].term
    {
      if k < |base| {
        assert base[j].term <= base[k].term;
      } else if j < |base| {
        assert base[j].term <= t - 1;
      }
    }
  }

  /** A leader's log is itself sound. */
  lemma LeaderLogOk(n: nat, h: History, t: nat)
    requires HistoryInv(n, h) && t in h.leaderLog
    ensures LogOk(h.leaderLog, h.leaderLog[t]) && TermsUpTo(h.leaderLog[t], t)
  {
    hide LogOk, TermsUpTo;
    assert LeaderInv(n, h, t);
    OwnBallot(n, h, t);
    var leader := h.elections[t].leader;
    assert BallotInv(n, h, leader, t);
    ExtendedLogOk(h.leaderLog, h.ballots[(leader, t)].voterLog, h.leaderLog[t], t);
  }

  /** The leader voted for itself. */
  lemma OwnBallot(n: nat, h: History, t: nat)
    requires HistoryInv(n, h) && t in h.leaderLog && LeaderInv(n, h, t)
    ensures h.ballots[(h.elections[t].leader, t)].candidate == h.elections[t].leader
  {
    var q := h.elections[t].quorum;
    assert q != {};
    var v :| v in q;
    assert BallotInv(n, h, v, t);
  }

  lemma SpliceLog(log: seq<LogEntry>, ll: seq<LogEntry>, prev: nat, entries: seq<LogEntry>)
    requires SameUpTo(log, ll, prev) && prev + |entries| < |ll|
    requires forall k | 0 <= k < |entries| :: entries[k] == ll[prev + 1 + k]
    ensures log[..prev + 1] + entries == ll[..prev + |entries| + 1]
  {
    var got, want := log[..prev + 1] + entries, ll[..prev + |entries| + 1];
    forall k | 0 <= k < |got|
      ensures got[k] == want[k]
    {
      if k > prev {
        assert got[k] == entries[k - prev - 1];
      }
    }
  }

  /** Two sound logs with the same term at an index are identical up to it. */
  lemma SameTermSameLog(ll: Logs, a: seq<LogEntry>, b: seq<LogEntry>, i: int)
    requires LogOk(ll, a) && LogOk(ll, b) && 0 <= i < |a| && i < |b| && a[i].term == b[i].term
    ensures SameUpTo(a, b, i)
  {
    if i > 0 {
      assert SameUpTo(a, ll[a[i].term], i) && SameUpTo(b, ll[b[i].term], i);
    }
  }

  /** The log after accepting a request is the leader's log up to the request's end. */
  lemma AcceptedLog(n: nat, h: History, log: seq<LogEntry>, to: int, args: AppendEntriesArgs)
    requires HistoryInv(n, h) && LogOk(h.leaderLog, log) && AppendInv(h, to, args)
    requires args.prevLogIndex < |log| && log[args.prevLogIndex].term == args.prevLogTerm
    ensures log[..args.prevLogIndex + 1] + args.entries == h.leaderLog[args.term][..End(args) + 1]
  {
    hide LogOk, HistoryInv, SameUpTo;
    LeaderLogOk(n, h, args.term);
    SameTermSameLog(h.leaderLog, log, h.leaderLog[args.term], args.prevLogIndex);
    SpliceLog(log, h.leaderLog[args.term], args.prevLogIndex, args.entries);
  }
}
