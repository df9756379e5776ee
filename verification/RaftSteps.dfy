/** Each step keeps the invariant of RaftInvariant. */
module RaftSteps {
  import opened Quorums
  import opened RaftServer
  import opened RaftCluster
  import opened RaftInvariant

  /** What one step has to show about the acting server, its messages and the record. */
  ghost predicate Local(n: nat, h: History, h': History, i: int, s': Server, msgs: set<Message>) {
    && Extends(h, h', i) && HistoryInv(n, h') && ServerInv(n, h', i, s')
    && forall m | m in msgs :: MessageInv(n, h', m)
  }

  lemma Assemble(c: Cluster, i: int, s': Server, msgs: set<Message>, h': History)
    requires Inv(c) && 0 <= i < |c.servers| && Local(|c.servers|, c.hist, h', i, s', msgs)
    ensures Inv(Cluster(c.servers[i := s'], c.net + msgs, h'))
  {
    hide Extends, HistoryInv, ServerInv, MessageInv;
    var n, servers := |c.servers|, c.servers[i := s'];
    forall j | 0 <= j < n
      ensures ServerInv(n, h', j, servers[j])
    {
      if j != i {
        OthersKeep(n, c.hist, h', i, j, c.servers[j]);
      }
    }
    forall m | m in c.net + msgs
      ensures MessageInv(n, h', m)
    {
      if m in c.net {
        MessageGrows(n, c.hist, h', i, m);
      }
    }
  }

  lemma ExtendsItself(h: History, i: int)
    ensures Extends(h, h, i)
  {
  }

  /** What is new in a record decides whether it is sound. */
  lemma HistoryKeeps(n: nat, h: History, h': History, i: int)
    requires HistoryInv(n, h) && Extends(h, h', i)
    requires forall v, t | (v, t) in h'.ballots && (v, t) !in h.ballots :: BallotInv(n, h', v, t)
    requires forall t | t in h'.leaderLog && t !in h.leaderLog :: LeaderInv(n, h', t)
    requires forall t | t in h'.elections && t !in h.elections :: t in h'.leaderLog
    requires forall w, t | (w, t) in h'.acked && ((w, t) !in h.acked || h.acked[(w, t)] != h'.acked[(w, t)]) ::
               AckInv(n, h', w, t)
    ensures HistoryInv(n, h')
  {
    hide LogOk, Majority, MoreUpToDate, TermsUpTo, BallotInv, LeaderInv, AckInv;
    forall v, t | (v, t) in h'.ballots
      ensures BallotInv(n, h', v, t)
    {
      if (v, t) in h.ballots {
        BallotGrows(n, h, h', i, v, t);
      }
    }
    forall t | t in h'.leaderLog
      ensures LeaderInv(n, h', t)
    {
      if t in h.leaderLog {
        LeaderGrows(n, h, h', i, t);
      }
    }
    forall w, t | (w, t) in h'.acked
      ensures AckInv(n, h', w, t)
    {
      if (w, t) in h.acked && h.acked[(w, t)] == h'.acked[(w, t)] {
        AckGrows(n, h, h', i, w, t);
      }
    }
  }

  /** A record that only adds commits and deliveries. */
  lemma SameRecord(n: nat, h: History, h': History, i: int, s: Server)
    requires h' == h.(commits := h'.commits, applied := h'.applied)
    requires HistoryInv(n, h) && ServerInv(n, h, i, s)
    ensures Local(n, h, h', i, s, {})
  {
    hide HistoryInv, Extends, ServerInv;
    SameExtends(h, h', i);
    SameHistory(n, h, h', i);
    SameServer(n, h, h', i, s);
  }

  lemma SameExtends(h: History, h': History, i: int)
    requires h' == h.(commits := h'.commits, applied := h'.applied)
    ensures Extends(h, h', i)
  {
  }

  lemma SameHistory(n: nat, h: History, h': History, i: int)
    requires h' == h.(commits := h'.commits, applied := h'.applied) && Extends(h, h', i) && HistoryInv(n, h)
    ensures HistoryInv(n, h')
  {
    hide LogOk, BallotInv, LeaderInv, AckInv, Extends, HistoryInv;
    HistoryKeeps(n, h, h', i);
  }

  lemma SameServer(n: nat, h: History, h': History, i: int, s: Server)
    requires h' == h.(commits := h'.commits, applied := h'.applied) && ServerInv(n, h, i, s)
    ensures ServerInv(n, h', i, s)
  {
    hide LogOk, TermsUpTo, BooksInRange;
  }

  // ----- terms and roles

  lemma FollowerKeeps(n: nat, h: History, i: int, s: Server, term: nat)
    requires ServerInv(n, h, i, s)
    ensures ServerInv(n, h, i, BecomeFollower(s, term))
  {
    hide LogOk;
  }

  /** Adding a first vote to the record. */
  lemma CastKeeps(n: nat, h: History, i: int, t: nat, candidate: int, log: seq<LogEntry>)
    requires HistoryInv(n, h) && 0 <= i < n && (i, t) !in h.ballots
    requires var h' := CastBallot(h, i, t, candidate, log); (i, t) in h'.ballots ==> BallotInv(n, h', i, t)
    ensures var h' := CastBallot(h, i, t, candidate, log); Extends(h, h', i) && HistoryInv(n, h')
  {
    hide LogOk, BallotInv, LeaderInv, HistoryInv;
    HistoryKeeps(n, h, CastBallot(h, i, t, candidate, log), i);
  }

  lemma TimeoutLocal(n: nat, h: History, i: int, s: Server)
    requires HistoryInv(n, h) && ServerInv(n, h, i, s)
    ensures var t := BecomeCandidate(s, i);
            var h' := if s.role == Leader then h else CastBallot(h, i, t.term, i, s.log);
            Local(n, h, h', i, t, {})
  {
    hide LogOk, HistoryInv;
    if s.role == Leader {
      ExtendsItself(h, i);
    } else {
      var t := BecomeCandidate(s, i);
      var h' := CastBallot(h, i, t.term, i, s.log);
      assert BallotInv(n, h', i, t.term) by {
        LogOkNonEmpty(h.leaderLog, s.log);
      }
      CastKeeps(n, h, i, t.term, i, s.log);
    }
  }

  lemma LogOkNonEmpty(ll: Logs, log: seq<LogEntry>)
    requires LogOk(ll, log)
    ensures log != []
  {
  }

  lemma BeginElectionLocal(n: nat, h: History, i: int, s: Server)
    requires HistoryInv(n, h) && ServerInv(n, h, i, s) && s.log != []
    ensures Local(n, h, h, i, CountSelf(s, i), Asks(s, i, n))
  {
    hide LogOk, HistoryInv;
    ExtendsItself(h, i);
  }

  lemma VoteRequestLocal(n: nat, h: History, i: int, s: Server, ask: RequestVoteArgs)
    requires HistoryInv(n, h) && ServerInv(n, h, i, s) && s.log != [] && MessageInv(n, h, VoteRequest(i, ask))
    ensures var (t, vote) := RequestVote(s, ask);
            var h' := if vote.voteGranted then CastBallot(h, i, ask.term, ask.candidateId, s.log) else h;
            Local(n, h, h', i, t, {VoteResponse(i, ask, vote)})
  {
    hide LogOk, HistoryInv, MoreUpToDate;
    ExtendsItself(h, i);
    FollowerKeeps(n, h, i, s, ask.term);
    var (t, vote) := RequestVote(s, ask);
    if vote.voteGranted {
      OwnAsk(n, h, ask);
      var h' := CastBallot(h, i, ask.term, ask.candidateId, s.log);
      if (i, ask.term) !in h.ballots {
        assert BallotInv(n, h', i, ask.term);
        CastKeeps(n, h, i, ask.term, ask.candidateId, s.log);
        GrantKeeps(n, h, h', i, s, ask);
      }
    }
  }

  lemma OwnAsk(n: nat, h: History, ask: RequestVoteArgs)
    requires HistoryInv(n, h) && (ask.candidateId, ask.term) in h.ballots
    ensures BallotInv(n, h, ask.candidateId, ask.term)
  {
  }

  lemma GrantKeeps(n: nat, h: History, h': History, i: int, s: Server, ask: RequestVoteArgs)
    requires ServerInv(n, h, i, s) && s.log != [] && RequestVote(s, ask).1.voteGranted
    requires (i, ask.term) !in h.ballots && h' == CastBallot(h, i, ask.term, ask.candidateId, s.log)
    requires ask.candidateId != NOBODY
    ensures ServerInv(n, h', i, RequestVote(s, ask).0)
  {
    hide LogOk, MoreUpToDate;
  }

  // ----- elections

  lemma ElectedKeeps(n: nat, h: History, i: int, s: Server, votes: set<int>)
    requires HistoryInv(n, h) && ServerInv(n, h, i, s) && s.role == Candidate && Majority(n, votes)
    requires forall v | v in votes :: (v, s.term) in h.ballots && h.ballots[(v, s.term)].candidate == i
    ensures var h' := h.(leaderLog := h.leaderLog[s.term := s.log], elections := h.elections[s.term := Election(i, votes)]);
            s.term !in h.leaderLog && Extends(h, h', i) && HistoryInv(n, h')
  {
    hide LogOk, Majority;
    hide HistoryInv, ServerInv, BallotInv, LeaderInv;
    NoLeaderYet(n, h, i, s, votes);
    var h' := h.(leaderLog := h.leaderLog[s.term := s.log], elections := h.elections[s.term := Election(i, votes)]);
    NewLeader(n, h, h', i, s, votes);
    assert Extends(h, h', i);
    HistoryKeeps(n, h, h', i);
  }

  lemma NoLeaderYet(n: nat, h: History, i: int, s: Server, votes: set<int>)
    requires HistoryInv(n, h) && ServerInv(n, h, i, s) && s.role == Candidate && Majority(n, votes)
    requires forall v | v in votes :: (v, s.term) in h.ballots && h.ballots[(v, s.term)].candidate == i
    ensures s.term !in h.leaderLog
  {
    hide LogOk, Majority;
    if s.term in h.leaderLog {
      OneLeaderPerTerm(n, h, s.term, i, votes);
    }
  }

  lemma NewLeader(n: nat, h: History, h': History, i: int, s: Server, votes: set<int>)
    requires HistoryInv(n, h) && ServerInv(n, h, i, s) && s.role == Candidate && Majority(n, votes)
    requires forall v | v in votes :: (v, s.term) in h.ballots && h.ballots[(v, s.term)].candidate == i
    requires s.term !in h.leaderLog
    requires h' == h.(leaderLog := h.leaderLog[s.term := s.log], elections := h.elections[s.term := Election(i, votes)])
    ensures LeaderInv(n, h', s.term) && s.term !in h.elections
  {
    hide LogOk, Majority;
    forall v | v in votes
      ensures h.ballots[(v, s.term)].early
    {
      assert BallotInv(n, h, v, s.term);
    }
    assert BallotInv(n, h, i, s.term);
  }

  lemma LeaderServer(n: nat, h: History, i: int, s: Server, votes: set<int>)
    requires ServerInv(n, h, i, s) && s.role == Candidate && s.term !in h.leaderLog
    requires var h' := h.(leaderLog := h.leaderLog[s.term := s.log], elections := h.elections[s.term := Election(i, votes)]);
             Extends(h, h', i)
    ensures var h' := h.(leaderLog := h.leaderLog[s.term := s.log], elections := h.elections[s.term := Election(i, votes)]);
            ServerInv(n, h', i, BecomeLeader(s.(votes := votes), n))
  {
    hide LogOk, Extends;
    var h' := h.(leaderLog := h.leaderLog[s.term := s.log], elections := h.elections[s.term := Election(i, votes)]);
    ExtendsLogs(h, h', i);
    LogOkGrows(h.leaderLog, h'.leaderLog, s.log);
  }

  lemma VoteResponseLocal(n: nat, h: History, i: int, s: Server, from: int, ask: RequestVoteArgs, vote: RequestVoteReply)
    requires HistoryInv(n, h) && ServerInv(n, h, i, s) && ask.candidateId == i
    requires MessageInv(n, h, VoteResponse(from, ask, vote))
    ensures var t := HandleVoteReply(s, n, ask.term, from, vote);
            var h' := if s.role == Candidate && t.role == Leader
                      then h.(leaderLog := h.leaderLog[t.term := t.log], elections := h.elections[t.term := Election(i, t.votes)])
                      else h;
            Local(n, h, h', i, t, {})
  {
    hide LogOk, HistoryInv, Extends, ServerInv, MessageInv, Majority;
    ExtendsItself(h, i);
    FollowerKeeps(n, h, i, s, vote.term);
    if vote.term <= s.term && !ContextLost(s, Candidate, ask.term) && vote.voteGranted {
      var votes := s.votes + {from};
      VoteCounted(n, h, i, s, from, ask, vote);
      if |votes| > n / 2 {
        MoreThanHalf(n, votes);
        ElectedKeeps(n, h, i, s, votes);
        LeaderServer(n, h, i, s, votes);
      }
    }
  }

  lemma VoteCounted(n: nat, h: History, i: int, s: Server, from: int, ask: RequestVoteArgs, vote: RequestVoteReply)
    requires ServerInv(n, h, i, s) && ask.candidateId == i && s.role == Candidate && s.term == ask.term
    requires MessageInv(n, h, VoteResponse(from, ask, vote)) && vote.voteGranted
    ensures var votes := s.votes + {from};
            && votes <= Peers(n) && ServerInv(n, h, i, s.(votes := votes))
            && forall v | v in votes :: (v, s.term) in h.ballots && h.ballots[(v, s.term)].candidate == i
  {
    hide ServerInv, Peers;
    IsCandidate(n, h, i, s);
    var votes := s.votes + {from};
    assert forall v | v in votes :: 0 <= v < n;
    CountedServer(n, h, i, s, votes);
  }

  lemma IsCandidate(n: nat, h: History, i: int, s: Server)
    requires ServerInv(n, h, i, s) && s.role == Candidate
    ensures CandidateInv(n, h, i, s)
  {
    hide LogOk, TermsUpTo, BooksInRange, CandidateInv;
  }

  lemma CountedServer(n: nat, h: History, i: int, s: Server, votes: set<int>)
    requires ServerInv(n, h, i, s) && s.role == Candidate && CandidateInv(n, h, i, s.(votes := votes))
    ensures ServerInv(n, h, i, s.(votes := votes))
  {
    hide LogOk, TermsUpTo, CandidateInv;
  }

  // ----- replication

  lemma StartKeeps(n: nat, h: History, i: int, s: Server, log: seq<LogEntry>)
    requires HistoryInv(n, h) && ServerInv(n, h, i, s) && s.role == Leader && GrewInTerm(s.log, log, s.term)
    ensures var h' := h.(leaderLog := h.leaderLog[s.term := log]); Extends(h, h', i) && HistoryInv(n, h')
  {
    hide LogOk, BallotInv, LeaderInv, AckInv, HistoryInv;
    var h' := h.(leaderLog := h.leaderLog[s.term := log]);
    assert Extends(h, h', i);
    HistoryKeeps(n, h, h', i);
  }

  lemma StartServer(n: nat, h: History, h': History, i: int, s: Server, command: Command)
    requires ServerInv(n, h, i, s) && s.role == Leader
    requires var t := Start(s, command).0;
             h' == h.(leaderLog := h.leaderLog[t.term := t.log]) && LogOk(h'.leaderLog, t.log)
    ensures ServerInv(n, h', i, Start(s, command).0)
  {
    hide LogOk;
    var t := Start(s, command).0;
    forall p | 0 <= p < n
      ensures Recorded(h', p, t.term, t.matchIndex[p])
    {
      assert Recorded(h, p, s.term, s.matchIndex[p]);
    }
  }

  lemma StartLocal(n: nat, h: History, i: int, s: Server, command: Command)
    requires HistoryInv(n, h) && ServerInv(n, h, i, s)
    ensures var t := Start(s, command).0;
            var h' := if s.role == Leader then h.(leaderLog := h.leaderLog[t.term := t.log]) else h;
            Local(n, h, h', i, t, {})
  {
    hide LogOk, HistoryInv, ServerInv, Extends;
    if s.role == Leader {
      var t := Start(s, command).0;
      var h' := h.(leaderLog := h.leaderLog[t.term := t.log]);
      StartKeeps(n, h, i, s, t.log);
      LeaderLogOk(n, h', t.term);
      StartServer(n, h, h', i, s, command);
    } else {
      ExtendsItself(h, i);
    }
  }

  lemma AckedKeeps(n: nat, h: History, i: int, t: nat, index: nat)
    requires HistoryInv(n, h) && 0 <= i < n && t in h.leaderLog && index < |h.leaderLog[t]|
    ensures var h' := h.(acked := Acknowledge(h.acked, i, t, index));
            && Extends(h, h', i) && HistoryInv(n, h')
            && (i, t) in h'.acked && h'.acked[(i, t)] >= index
  {
    hide LogOk, BallotInv, LeaderInv;
    var h' := h.(acked := Acknowledge(h.acked, i, t, index));
    if (i, t) in h.acked {
      assert AckInv(n, h, i, t);
    }
    assert Extends(h, h', i);
    HistoryKeeps(n, h, h', i);
  }

  lemma AckedServer(n: nat, h: History, i: int, s: Server, index: nat)
    requires ServerInv(n, h, i, s)
    ensures ServerInv(n, h.(acked := Acknowledge(h.acked, i, s.term, index)), i, s)
  {
    hide LogOk;
    var h' := h.(acked := Acknowledge(h.acked, i, s.term, index));
    if s.role == Leader {
      forall p | 0 <= p < n
        ensures Recorded(h', p, s.term, s.matchIndex[p])
      {
        assert Recorded(h, p, s.term, s.matchIndex[p]);
      }
    }
  }

  lemma SendsInv(n: nat, h: History, i: int, s: Server, m: Message)
    requires ServerInv(n, h, i, s) && s.role == Leader && s.snapIdx < |s.log| && m in Sends(s, i, n)
    ensures MessageInv(n, h, m)
  {
    hide LogOk;
    if m in Appends(s, i, n) {
      var p :| 0 <= p < n && p != i && CanReplicate(s, p) && m == AppendRequest(p, ReplicateArgs(s, i, p));
    } else {
      var p :| 0 <= p < n && p != i && Behind(s, p) && m == InstallRequest(p, InstallArgs(s, i));
    }
  }

  lemma OwnLogServer(n: nat, h: History, i: int, s: Server)
    requires ServerInv(n, h, i, s) && s.role == Leader && Recorded(h, i, s.term, |s.log| - 1)
    ensures ServerInv(n, h, i, CountOwnLog(s, i))
  {
    hide LogOk;
  }

  lemma LeaderFacts(n: nat, h: History, i: int, s: Server)
    requires ServerInv(n, h, i, s) && s.role == Leader
    ensures s.term in h.leaderLog && s.log == h.leaderLog[s.term] && |s.log| > 0 && 0 <= i < n
  {
  }

  lemma ReplicateLocal(n: nat, h: History, i: int, s: Server)
    requires HistoryInv(n, h) && ServerInv(n, h, i, s) && s.snapIdx < |s.log| && |s.matchIndex| == |s.nextIndex| == n
    ensures var h' := if s.role == Leader then h.(acked := Acknowledge(h.acked, i, s.term, |s.log| - 1)) else h;
            Local(n, h, h', i, CountOwnLog(s, i), Sends(s, i, n))
  {
    hide LogOk, HistoryInv, Extends, ServerInv, MessageInv;
    if s.role == Leader {
      LeaderFacts(n, h, i, s);
      var h' := h.(acked := Acknowledge(h.acked, i, s.term, |s.log| - 1));
      AckedKeeps(n, h, i, s.term, |s.log| - 1);
      AckedServer(n, h, i, s, |s.log| - 1);
      OwnLogServer(n, h', i, s);
      forall m | m in Sends(s, i, n)
        ensures MessageInv(n, h', m)
      {
        SendsInv(n, h', i, s, m);
      }
    } else {
      ExtendsItself(h, i);
    }
  }

  lemma AppendRequestLocal(n: nat, h: History, i: int, s: Server, args: AppendEntriesArgs)
    requires HistoryInv(n, h) && ServerInv(n, h, i, s) && s.snapIdx < |s.log|
    requires MessageInv(n, h, AppendRequest(i, args))
    ensures var (t, reply) := AppendEntries(s, args);
            var h' := if reply.success then h.(acked := Acknowledge(h.acked, i, args.term, End(args))) else h;
            Local(n, h, h', i, t, {AppendResponse(i, args, reply)})
  {
    hide LogOk, HistoryInv, Extends;
    var (t, reply) := AppendEntries(s, args);
    FollowerKeeps(n, h, i, s, args.term);
    if reply.success {
      var h' := h.(acked := Acknowledge(h.acked, i, args.term, End(args)));
      AcceptedServer(n, h, i, s, args);
      AckedKeeps(n, h, i, args.term, End(args));
      AckedServer(n, h, i, t, End(args));
      AppendGrows(h, h', i, i, args);
    } else {
      ExtendsItself(h, i);
    }
  }

  lemma AcceptedServer(n: nat, h: History, i: int, s: Server, args: AppendEntriesArgs)
    requires HistoryInv(n, h) && ServerInv(n, h, i, s) && s.snapIdx < |s.log| && AppendInv(h, i, args)
    requires AppendEntries(s, args).1.success
    ensures var t := AppendEntries(s, args).0;
            && ServerInv(n, h, i, t) && t.term == args.term && t.role == Follower
            && t.log == h.leaderLog[args.term][..End(args) + 1]
  {
    hide LogOk, HistoryInv;
    FollowerKeeps(n, h, i, s, args.term);
    AcceptedLog(n, h, s.log, i, args);
    LeaderLogOk(n, h, args.term);
    LogOkPrefix(h.leaderLog, h.leaderLog[args.term], h.leaderLog[args.term][..End(args) + 1]);
  }

  lemma AppendResponseLocal(
    n: nat, h: History, h': History, i: int, s: Server, from: int, args: AppendEntriesArgs, reply: AppendEntriesReply)
    requires HistoryInv(n, h) && ServerInv(n, h, i, s) && RepliesInRange(s, n, from, args) && args.leaderId == i
    requires MessageInv(n, h, AppendResponse(from, args, reply))
    requires h' == h.(commits := h'.commits, applied := h'.applied)
    ensures Local(n, h, h', i, HandleAppendReply(s, n, args.term, from, args, reply), {})
  {
    hide HistoryInv, ServerInv, Local;
    ReplyServer(n, h, i, s, from, args, reply);
    SameRecord(n, h, h', i, HandleAppendReply(s, n, args.term, from, args, reply));
  }

  lemma ReplyServer(
    n: nat, h: History, i: int, s: Server, from: int, args: AppendEntriesArgs, reply: AppendEntriesReply)
    requires ServerInv(n, h, i, s) && RepliesInRange(s, n, from, args)
    requires MessageInv(n, h, AppendResponse(from, args, reply))
    ensures ServerInv(n, h, i, HandleAppendReply(s, n, args.term, from, args, reply))
  {
    hide ServerInv, MajorityIndex, AppendInv;
    FollowerKeeps(n, h, i, s, reply.term);
    if reply.term <= s.term && !ContextLost(s, Leader, args.term) {
      var t := HandleAppendReply(s, n, args.term, from, args, reply);
      LeaderRecorded(n, h, i, s);
      forall p | 0 <= p < n
        ensures Recorded(h, p, s.term, t.matchIndex[p])
      {
        assert Recorded(h, p, s.term, s.matchIndex[p]);
      }
      BookKeeping(n, h, i, s, t);
    }
  }

  lemma LeaderRecorded(n: nat, h: History, i: int, s: Server)
    requires ServerInv(n, h, i, s) && s.role == Leader
    ensures |s.matchIndex| == n && forall p | 0 <= p < n :: Recorded(h, p, s.term, s.matchIndex[p])
  {
  }

  /** A leader may change its books as long as they stay in range and on record. */
  lemma BookKeeping(n: nat, h: History, i: int, s: Server, t: Server)
    requires ServerInv(n, h, i, s) && s.role == Leader && BooksInRange(t, n)
    requires t == s.(nextIndex := t.nextIndex, matchIndex := t.matchIndex, commitIndex := t.commitIndex)
    requires forall p | 0 <= p < n :: Recorded(h, p, s.term, t.matchIndex[p])
    ensures ServerInv(n, h, i, t)
  {
    hide LogOk, TermsUpTo, BooksInRange, Recorded;
  }

  // ----- snapshots from the leader

  lemma InstalledServer(n: nat, h: History, i: int, s: Server, install: InstallSnapshotArgs)
    requires HistoryInv(n, h) && ServerInv(n, h, i, s) && InstallInv(h, i, install) && install.term >= s.term
    ensures var t := AcceptSnapshot(s, install).0; ServerInv(n, h, i, t) && t.term == install.term
  {
    hide LogOk, HistoryInv, ServerInv;
    FollowerKeeps(n, h, i, s, install.term);
    var t := BecomeFollower(s, install.term);
    if t.snapIdx < install.lastIncludedIndex {
      LeaderLogOk(n, h, install.term);
      LogOkPrefix(h.leaderLog, h.leaderLog[install.term], install.snapshot);
      ReplacedLog(n, h, i, t, install);
    }
  }

  lemma ReplacedLog(n: nat, h: History, i: int, t: Server, install: InstallSnapshotArgs)
    requires ServerInv(n, h, i, t) && InstallInv(h, i, install) && t.role == Follower && t.term == install.term
    requires LogOk(h.leaderLog, install.snapshot) && TermsUpTo(h.leaderLog[install.term], install.term)
    ensures ServerInv(n, h, i, Persist(t.(log := install.snapshot, snapIdx := install.lastIncludedIndex, snapPending := true)))
  {
    hide LogOk;
  }

  lemma InstallRequestLocal(n: nat, h: History, i: int, s: Server, install: InstallSnapshotArgs)
    requires HistoryInv(n, h) && ServerInv(n, h, i, s) && MessageInv(n, h, InstallRequest(i, install))
    ensures var (t, term) := AcceptSnapshot(s, install);
            var h' := if install.term >= s.term
                      then h.(acked := Acknowledge(h.acked, i, install.term, install.lastIncludedIndex)) else h;
            Local(n, h, h', i, t, {InstallResponse(i, install, term)})
  {
    hide LogOk, HistoryInv, Extends, ServerInv;
    var (t, term) := AcceptSnapshot(s, install);
    if install.term >= s.term {
      var h' := h.(acked := Acknowledge(h.acked, i, install.term, install.lastIncludedIndex));
      InstalledServer(n, h, i, s, install);
      AckedKeeps(n, h, i, install.term, install.lastIncludedIndex);
      AckedServer(n, h, i, t, install.lastIncludedIndex);
      InstallGrows(h, h', i, i, install);
    } else {
      ExtendsItself(h, i);
    }
  }

  lemma InstallResponseLocal(n: nat, h: History, i: int, s: Server, from: int, install: InstallSnapshotArgs, term: nat)
    requires HistoryInv(n, h) && ServerInv(n, h, i, s) && InstallInRange(s, n, from, install)
    requires MessageInv(n, h, InstallResponse(from, install, term))
    ensures Local(n, h, h, i, HandleInstallReply(s, install.term, from, install, term), {})
  {
    hide LogOk, HistoryInv, InstallInv, Extends;
    ExtendsItself(h, i);
    FollowerKeeps(n, h, i, s, term);
  }

  // ----- the service and crashes

  lemma QuietServer(n: nat, h: History, i: int, s: Server, index: nat)
    requires ServerInv(n, h, i, s)
    ensures ServerInv(n, h, i, Apply(s))
    ensures !SnapshotPanics(s, index) ==> ServerInv(n, h, i, TakeSnapshot(s, index))
  {
    hide LogOk, TermsUpTo, Recorded;
  }

  lemma InstalledApplied(n: nat, h: History, i: int, s: Server)
    requires ServerInv(n, h, i, s)
    ensures ServerInv(n, h, i, ApplyInstalled(s))
  {
    hide LogOk, TermsUpTo, Recorded;
  }

  lemma RestartServer(n: nat, h: History, i: int, s: Server)
    requires ServerInv(n, h, i, s)
    ensures ServerInv(n, h, i, Restart(s, n))
  {
    hide LogOk, TermsUpTo;
  }

  // ----- all steps

  lemma InitInv(n: nat)
    ensures Inv(Init(n))
  {
    var c := Init(n);
    forall i | 0 <= i < n
      ensures ServerInv(n, c.hist, i, c.servers[i])
    {
    }
  }

  /** Every step of every kind keeps the invariant. */
  lemma StepKeeps(c: Cluster, step: Step)
    requires Inv(c) && Enabled(c, step)
    ensures Inv(Next(c, step))
  {
    var n, h, s := |c.servers|, c.hist, c.servers[step.i];
    StepLocal(c, step);
    Assemble(c, step.i, NextServer(c, step), NewMessages(c, step), NextHistory(c, step));
  }

  lemma StepLocal(c: Cluster, step: Step)
    requires Inv(c) && Enabled(c, step)
    ensures Local(|c.servers|, c.hist, NextHistory(c, step), step.i, NextServer(c, step), NewMessages(c, step))
  {
    hide HistoryInv, ServerInv, MessageInv, Local, LogOk;
    var n, h, i, s := |c.servers|, c.hist, step.i, c.servers[step.i];
    match step
    case Timeout(_) => TimeoutLocal(n, h, i, s);
    case BeginElection(_) => BeginElectionLocal(n, h, i, s);
    case ReceiveVoteRequest(_, ask) => VoteRequestLocal(n, h, i, s, ask);
    case ReceiveVoteResponse(_, from, ask, vote) => VoteResponseLocal(n, h, i, s, from, ask, vote);
    case ClientStart(_, command) => StartLocal(n, h, i, s, command);
    case Replicate(_) => ReplicateLocal(n, h, i, s);
    case ReceiveAppendRequest(_, args) => AppendRequestLocal(n, h, i, s, args);
    case ReceiveAppendResponse(_, from, args, reply) =>
      AppendResponseLocal(n, h, NextHistory(c, step), i, s, from, args, reply);
    case ReceiveInstallRequest(_, install) => InstallRequestLocal(n, h, i, s, install);
    case ReceiveInstallResponse(_, from, install, term) => InstallResponseLocal(n, h, i, s, from, install, term);
    case ApplyCommitted(_) =>
      QuietServer(n, h, i, s, 0);
      SameRecord(n, h, NextHistory(c, step), i, Apply(s));
    case ApplySnapshot(_) =>
      InstalledApplied(n, h, i, s);
      SameRecord(n, h, h, i, ApplyInstalled(s));
    case ServiceSnapshot(_, index) =>
      QuietServer(n, h, i, s, index);
      RestartServer(n, h, i, s);
      SameRecord(n, h, h, i, NextServer(c, step));
    case CrashRestart(_) =>
      RestartServer(n, h, i, s);
      SameRecord(n, h, h, i, Restart(s, n));
  }
}
