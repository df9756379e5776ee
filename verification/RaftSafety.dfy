/** State Machine Safety, and Leader Completeness over whole runs, under the delivery hypothesis. */
module RaftSafety {
  import opened Quorums
  import opened RaftServer
  import opened RaftCluster
  import opened RaftInvariant
  import opened RaftSteps
  import opened RaftRuns
  import opened RaftCompleteness

  /** Commit `(t, i)` accounts for the entries `log` has up to `upTo`. */
  ghost predicate Accounts(h: History, t: nat, i: nat, term: nat, log: seq<LogEntry>, upTo: nat) {
    && (t, i) in h.commits && t in h.leaderLog && i < |h.leaderLog[t]| && t <= term && upTo <= i
    && forall k | 0 <= k <= upTo && k < |log| :: log[k] == h.leaderLog[t][k]
  }

  /** Some leader committed everything up to `upTo`, in a term no later, and the log agrees. */
  ghost predicate Covered(h: History, term: nat, log: seq<LogEntry>, upTo: nat) {
    upTo == 0 || exists t: nat, i: nat :: Accounts(h, t, i, term, log, upTo)
  }

  /** A server commits and snapshots only what some leader committed. */
  ghost predicate CommitOk(h: History, s: Server) {
    Covered(h, s.term, s.log, s.commitIndex) && Covered(h, s.term, s.log, s.snapIdx)
  }

  ghost predicate AnnouncedOk(h: History, args: AppendEntriesArgs) {
    Covered(h, args.term, [], args.leaderCommit)
  }

  ghost predicate InstallOk(h: History, install: InstallSnapshotArgs) {
    Covered(h, install.term, [], install.lastIncludedIndex)
  }

  ghost predicate AppliedOk(h: History, k: nat, e: LogEntry) {
    exists t: nat, i: nat :: Accounts(h, t, i, t, [], k) && h.leaderLog[t][k] == e
  }

  ghost predicate CommitInv(c: Cluster) {
    var n, h := |c.servers|, c.hist;
    && (forall t, i | (t, i) in h.commits :: Committed(n, h, t, i, h.commits[(t, i)]))
    && (forall w | 0 <= w < n :: CommitOk(h, c.servers[w]))
    && (forall to, args | AppendRequest(to, args) in c.net :: AnnouncedOk(h, args))
    && (forall to, install | InstallRequest(to, install) in c.net :: InstallOk(h, install))
    && (forall w, k, e | (w, k, e) in h.applied :: AppliedOk(h, k, e))
  }

  // ----- records grow

  ghost predicate Prolongs(h: History, h': History) {
    LogsGrow(h.leaderLog, h'.leaderLog) && h.commits.Keys <= h'.commits.Keys
  }

  lemma AccountsGrows(h: History, h': History, t: nat, i: nat, term: nat, log: seq<LogEntry>, upTo: nat)
    requires Prolongs(h, h') && Accounts(h, t, i, term, log, upTo)
    ensures Accounts(h', t, i, term, log, upTo)
  {
    assert (t, i) in h.commits.Keys;
  }

  lemma CoveredGrows(h: History, h': History, term: nat, log: seq<LogEntry>, upTo: nat)
    requires Prolongs(h, h') && Covered(h, term, log, upTo)
    ensures Covered(h', term, log, upTo)
  {
    hide Accounts, Prolongs;
    if upTo != 0 {
      var t: nat, i: nat :| Accounts(h, t, i, term, log, upTo);
      AccountsGrows(h, h', t, i, term, log, upTo);
    }
  }

  lemma CoveredLess(h: History, term: nat, log: seq<LogEntry>, upTo: nat, term': nat, upTo': nat)
    requires Covered(h, term, log, upTo) && term <= term' && upTo' <= upTo
    ensures Covered(h, term', log, upTo') && Covered(h, term', [], upTo')
  {
    if upTo' != 0 {
      var t: nat, i: nat :| Accounts(h, t, i, term, log, upTo);
      assert Accounts(h, t, i, term', log, upTo') && Accounts(h, t, i, term', [], upTo');
    }
  }

  lemma CommitOkGrows(h: History, h': History, s: Server)
    requires Prolongs(h, h') && CommitOk(h, s)
    ensures CommitOk(h', s)
  {
    hide Covered, Prolongs;
    CoveredGrows(h, h', s.term, s.log, s.commitIndex);
    CoveredGrows(h, h', s.term, s.log, s.snapIdx);
  }

  lemma AppliedGrows(h: History, h': History, k: nat, e: LogEntry)
    requires Prolongs(h, h') && AppliedOk(h, k, e)
    ensures AppliedOk(h', k, e)
  {
    var t: nat, i: nat :| Accounts(h, t, i, t, [], k) && h.leaderLog[t][k] == e;
    AccountsGrows(h, h', t, i, t, [], k);
  }

  lemma CommittedGrows(n: nat, h: History, h': History, i: int, t: nat, k: nat, q: set<int>)
    requires Extends(h, h', i) && Committed(n, h, t, k, q)
    ensures Committed(n, h', t, k, q)
  {
    hide Majority;
    assert GrewInTerm(h.leaderLog[t], h'.leaderLog[t], t);
    forall w | w in q
      ensures Acked(h', w, t, k)
    {
      assert Acked(h, w, t, k);
    }
  }

  // ----- commits agree

  ghost predicate AllCommitted(n: nat, h: History) {
    forall t, i | (t, i) in h.commits :: Committed(n, h, t, i, h.commits[(t, i)])
  }

  /** What the step has established about the record. */
  ghost predicate Sound(n: nat, h: History) {
    HistoryInv(n, h) && AllHeldAtVotes(h) && AllCommitted(n, h)
  }

  /** A commit of an earlier or the same term is part of a leader's log. */
  lemma CommitInLeader(n: nat, h: History, t: nat, i: nat, u: nat)
    requires HistoryInv(n, h) && AllHeldAtVotes(h) && AllCommitted(n, h)
    requires (t, i) in h.commits && u in h.leaderLog && t <= u
    ensures t in h.leaderLog && SameUpTo(h.leaderLog[t], h.leaderLog[u], i)
  {
    hide HistoryInv, AllHeldAtVotes;
    assert Committed(n, h, t, i, h.commits[(t, i)]);
    if t < u {
      LeaderCompleteness(n, h, t, i, h.commits[(t, i)], u);
    }
  }

  lemma CommitsAgree(n: nat, h: History, t: nat, i: nat, u: nat, j: nat, k: nat)
    requires HistoryInv(n, h) && AllHeldAtVotes(h) && AllCommitted(n, h)
    requires (t, i) in h.commits && (u, j) in h.commits && k <= i && k <= j
    ensures t in h.leaderLog && u in h.leaderLog && k < |h.leaderLog[t]| && k < |h.leaderLog[u]|
    ensures h.leaderLog[t][k] == h.leaderLog[u][k]
  {
    hide HistoryInv, AllHeldAtVotes;
    assert Committed(n, h, t, i, h.commits[(t, i)]) && Committed(n, h, u, j, h.commits[(u, j)]);
    if t <= u {
      CommitInLeader(n, h, t, i, u);
    } else {
      CommitInLeader(n, h, u, j, t);
    }
  }

  // ----- the acting server

  /** A log cut from a leader's log agrees with every commit of that term or an earlier one. */
  lemma LeaderPrefixAccounts(
    n: nat, h: History, t: nat, i: nat, u: nat, log: seq<LogEntry>, upTo: nat)
    requires HistoryInv(n, h) && AllHeldAtVotes(h) && AllCommitted(n, h)
    requires (t, i) in h.commits && u in h.leaderLog && t <= u && upTo <= i && log <= h.leaderLog[u]
    ensures Accounts(h, t, i, u, log, upTo)
  {
    hide HistoryInv, AllHeldAtVotes, AllCommitted;
    CommitInLeader(n, h, t, i, u);
  }

  lemma CoveredByLeader(n: nat, h: History, term: nat, log: seq<LogEntry>, upTo: nat, u: nat, log': seq<LogEntry>)
    requires Sound(n, h) && Covered(h, term, log, upTo) && term <= u && u in h.leaderLog && log' <= h.leaderLog[u]
    ensures Covered(h, u, log', upTo)
  {
    hide HistoryInv, AllHeldAtVotes, AllCommitted;
    if upTo != 0 {
      var t: nat, i: nat :| Accounts(h, t, i, term, log, upTo);
      LeaderPrefixAccounts(n, h, t, i, u, log', upTo);
    }
  }

  /** A log cut from a leader's log: what was committed before, announced, or snapshotted stays so. */
  lemma LeaderLogCommits(n: nat, h: History, s: Server, s': Server, announced: nat)
    requires Sound(n, h) && CommitOk(h, s) && s.term <= s'.term && s'.term in h.leaderLog
    requires Covered(h, s'.term, [], announced) && s'.log <= h.leaderLog[s'.term]
    requires s'.commitIndex == s.commitIndex || s'.commitIndex == announced
    requires s'.snapIdx == s.snapIdx || s'.snapIdx == announced
    ensures CommitOk(h, s')
  {
    hide Sound, Covered;
    CoveredByLeader(n, h, s.term, s.log, s.commitIndex, s'.term, s'.log);
    CoveredByLeader(n, h, s.term, s.log, s.snapIdx, s'.term, s'.log);
    CoveredByLeader(n, h, s'.term, [], announced, s'.term, s'.log);
  }

  lemma SameCommits(h: History, s: Server, s': Server)
    requires CommitOk(h, s) && s'.log == s.log && s.term <= s'.term
    requires s'.commitIndex <= s.commitIndex || s'.commitIndex <= s.snapIdx
    requires s'.snapIdx <= s.commitIndex || s'.snapIdx <= s.snapIdx
    ensures CommitOk(h, s')
  {
    hide Covered;
    forall k | 0 <= k <= s.commitIndex
      ensures Covered(h, s'.term, s'.log, k)
    {
      CoveredLess(h, s.term, s.log, s.commitIndex, s'.term, k);
    }
    forall k | 0 <= k <= s.snapIdx
      ensures Covered(h, s'.term, s'.log, k)
    {
      CoveredLess(h, s.term, s.log, s.snapIdx, s'.term, k);
    }
  }

  /** A leader that advances its commit index has a majority behind it. */
  lemma AdvanceCommits(n: nat, h: History, i: int, s: Server, s': Server)
    requires BooksInRange(s, n) && s.matchIndex != [] && s.role == Leader
    requires ServerInv(n, h, i, s') && s' == Advance(s) && s'.commitIndex > s.commitIndex
    requires HistoryInv(n, h)
    ensures Committed(n, h, s'.term, s'.commitIndex, set p | 0 <= p < |s'.matchIndex| && s'.matchIndex[p] >= s'.commitIndex)
  {
    hide LogOk, Majority, MajorityIndex;
    var k := s'.commitIndex;
    var q := set p | 0 <= p < |s'.matchIndex| && s'.matchIndex[p] >= k;
    assert q == Reached(s'.matchIndex, k);
    MajorityIndexMeaning(s.matchIndex, k);
    forall w | w in q
      ensures Acked(h, w, s'.term, k)
    {
      assert Recorded(h, w, s'.term, s'.matchIndex[w]);
    }
    assert LeaderInv(n, h, s'.term);
  }

  // ----- the steps

  lemma StepProlongs(c: Cluster, step: Step)
    requires Inv(c) && Enabled(c, step)
    ensures Prolongs(c.hist, NextHistory(c, step))
  {
    hide Inv;
    StepGrows(c, step);
  }

  /** The commits on record stay committed, and a new one is. */
  lemma CommitsStep(c: Cluster, step: Step)
    requires Inv(c) && CommitInv(c) && Enabled(c, step)
    ensures AllCommitted(|c.servers|, NextHistory(c, step))
  {
    hide LogOk, HistoryInv, MajorityIndex, BackOff, CommitOk, AnnouncedOk, AppliedOk, MessageInv, Majority, Extends, ServerInv;
    StepLocal(c, step);
    var n, h, h' := |c.servers|, c.hist, NextHistory(c, step);
    forall t, i | (t, i) in h'.commits
      ensures Committed(n, h', t, i, h'.commits[(t, i)])
    {
      if (t, i) in h.commits && h.commits[(t, i)] == h'.commits[(t, i)] {
        CommittedGrows(n, h, h', step.i, t, i, h.commits[(t, i)]);
      } else {
        NewCommit(c, step);
      }
    }
  }

  lemma NewCommit(c: Cluster, step: Step)
    requires Inv(c) && Enabled(c, step) && step.ReceiveAppendResponse?
    requires var s, t := c.servers[step.i], NextServer(c, step); t.commitIndex > s.commitIndex
    requires HistoryInv(|c.servers|, NextHistory(c, step))
    requires ServerInv(|c.servers|, NextHistory(c, step), step.i, NextServer(c, step))
    ensures var t := NextServer(c, step);
            Committed(|c.servers|, NextHistory(c, step), t.term, t.commitIndex,
                      set p | 0 <= p < |t.matchIndex| && t.matchIndex[p] >= t.commitIndex)
  {
    hide LogOk, HistoryInv, MajorityIndex, BackOff, MessageInv, Majority;
    var n, s := |c.servers|, c.servers[step.i];
    var matched := step.args.prevLogIndex + |step.args.entries|;
    var mid := s.(matchIndex := s.matchIndex[step.from := matched], nextIndex := s.nextIndex[step.from := matched + 1]);
    AdvanceCommits(n, NextHistory(c, step), step.i, mid, NextServer(c, step));
  }

  /** Only an accepted request, a leader's own advance and an installed snapshot go beyond what the
      server had committed or snapshotted. */
  lemma CommitIndexKept(c: Cluster, step: Step)
    requires Inv(c) && Enabled(c, step)
    requires step.ReceiveAppendRequest? ==> !AppendEntries(c.servers[step.i], step.args).1.success
    requires step.ReceiveInstallRequest? ==> !Replaces(c.servers[step.i], step.install)
    requires step.ReceiveAppendResponse? ==> NextServer(c, step).commitIndex <= c.servers[step.i].commitIndex
    ensures var s, s' := c.servers[step.i], NextServer(c, step);
            && (s'.commitIndex <= s.commitIndex || s'.commitIndex <= s.snapIdx)
            && (s'.snapIdx <= s.commitIndex || s'.snapIdx <= s.snapIdx)
  {
    hide LogOk, HistoryInv, MessageInv, MajorityIndex, MoreUpToDate, BackOff;
    assert ServerInv(|c.servers|, c.hist, step.i, c.servers[step.i]);
  }

  lemma AcceptStep(c: Cluster, step: Step)
    requires Inv(c) && Enabled(c, step) && step.ReceiveAppendRequest?
    requires AppendEntries(c.servers[step.i], step.args).1.success
    ensures var s, s', h' := c.servers[step.i], NextServer(c, step), NextHistory(c, step);
            && s.term <= step.args.term && s'.term == step.args.term
            && step.args.term in h'.leaderLog && s'.log <= h'.leaderLog[step.args.term]
            && (s'.commitIndex == s.commitIndex || s'.commitIndex == step.args.leaderCommit) && s'.snapIdx == s.snapIdx
  {
    hide LogOk, HistoryInv;
    var n, h, i := |c.servers|, c.hist, step.i;
    assert ServerInv(n, h, i, c.servers[i]) && MessageInv(n, h, AppendRequest(i, step.args));
    AcceptedServer(n, h, i, c.servers[i], step.args);
  }

  /** The log after an installed snapshot. */
  lemma InstallStep(c: Cluster, step: Step)
    requires Inv(c) && Enabled(c, step) && step.ReceiveInstallRequest? && Replaces(c.servers[step.i], step.install)
    ensures var s, s', h' := c.servers[step.i], NextServer(c, step), NextHistory(c, step);
            && s.term <= step.install.term && s'.term == step.install.term
            && step.install.term in h'.leaderLog && s'.log <= h'.leaderLog[step.install.term]
            && s'.commitIndex == s.commitIndex && s'.snapIdx == step.install.lastIncludedIndex
            && |s'.log| == step.install.lastIncludedIndex + 1
  {
    hide LogOk, HistoryInv, ServerInv;
    assert MessageInv(|c.servers|, c.hist, InstallRequest(step.i, step.install));
  }

  lemma ActingCommits(c: Cluster, step: Step)
    requires Inv(c) && CommitInv(c) && Enabled(c, step)
    requires var h' := NextHistory(c, step);
             && Sound(|c.servers|, h') && Prolongs(c.hist, h')
             && ServerInv(|c.servers|, h', step.i, NextServer(c, step))
    ensures CommitOk(NextHistory(c, step), NextServer(c, step))
  {
    hide Sound, Covered, CommitOk, MessageInv, Prolongs, Inv, NextHistory, NextServer, ServerInv, AppliedOk, Committed;
    var n, h, h', i := |c.servers|, c.hist, NextHistory(c, step), step.i;
    var s, s' := c.servers[i], NextServer(c, step);
    CommitOkGrows(h, h', s);
    if step.ReceiveAppendRequest? && AppendEntries(s, step.args).1.success {
      assert AnnouncedOk(h, step.args);
      CoveredGrows(h, h', step.args.term, [], step.args.leaderCommit);
      AcceptStep(c, step);
      LeaderLogCommits(n, h', s, s', step.args.leaderCommit);
    } else if step.ReceiveInstallRequest? && Replaces(s, step.install) {
      assert InstallOk(h, step.install);
      CoveredGrows(h, h', step.install.term, [], step.install.lastIncludedIndex);
      InstallStep(c, step);
      LeaderLogCommits(n, h', s, s', step.install.lastIncludedIndex);
    } else if step.ClientStart? && s.role == Leader {
      StartedStep(c, step);
      Uncovered(h', s.term);
      LeaderLogCommits(n, h', s, s', 0);
    } else if step.ReceiveAppendResponse? && s'.commitIndex > s.commitIndex {
      AdvancedCommits(c, step);
    } else {
      LogKept(c, step);
      CommitIndexKept(c, step);
      SameCommits(h', s, s');
    }
  }

  lemma Uncovered(h: History, term: nat)
    ensures Covered(h, term, [], 0)
  {
  }

  lemma StartedStep(c: Cluster, step: Step)
    requires Inv(c) && Enabled(c, step) && step.ClientStart? && c.servers[step.i].role == Leader
    ensures var s, s', h' := c.servers[step.i], NextServer(c, step), NextHistory(c, step);
            && s'.term == s.term && s.term in h'.leaderLog && s'.log == h'.leaderLog[s.term]
            && s'.commitIndex == s.commitIndex && s'.snapIdx == s.snapIdx
  {
  }

  lemma AdvancedCommits(c: Cluster, step: Step)
    requires Inv(c) && Enabled(c, step) && step.ReceiveAppendResponse?
    requires NextServer(c, step).commitIndex > c.servers[step.i].commitIndex
    requires ServerInv(|c.servers|, NextHistory(c, step), step.i, NextServer(c, step))
    requires CommitOk(NextHistory(c, step), c.servers[step.i])
    ensures CommitOk(NextHistory(c, step), NextServer(c, step))
  {
    hide Inv, ServerInv, NextHistory, Accounts;
    var s, s', h' := c.servers[step.i], NextServer(c, step), NextHistory(c, step);
    AdvancedAccounts(c, step);
    CoveredLess(h', s.term, s.log, s.snapIdx, s'.term, s'.snapIdx) by {
      hide MajorityIndex, BackOff;
    }
  }

  lemma AdvancedAccounts(c: Cluster, step: Step)
    requires Inv(c) && Enabled(c, step) && step.ReceiveAppendResponse?
    requires NextServer(c, step).commitIndex > c.servers[step.i].commitIndex
    requires ServerInv(|c.servers|, NextHistory(c, step), step.i, NextServer(c, step))
    ensures var s', h' := NextServer(c, step), NextHistory(c, step);
            Accounts(h', s'.term, s'.commitIndex, s'.term, s'.log, s'.commitIndex)
  {
    hide LogOk, HistoryInv, MajorityIndex, BackOff, MessageInv, Inv;
    var s' := NextServer(c, step);
    assert s'.role == Leader && s'.commitIndex < |s'.log|;
  }

  /** What a leader announces or sends as a snapshot is committed. */
  lemma NewMessagesOk(c: Cluster, step: Step, m: Message)
    requires CommitInv(c) && Enabled(c, step) && m in NewMessages(c, step)
    ensures m.AppendRequest? ==> AnnouncedOk(c.hist, m.args)
    ensures m.InstallRequest? ==> InstallOk(c.hist, m.install)
  {
    hide Committed, AppliedOk, Covered;
    var s := c.servers[step.i];
    assert CommitOk(c.hist, s);
    CoveredLess(c.hist, s.term, s.log, s.commitIndex, s.term, s.commitIndex);
    CoveredLess(c.hist, s.term, s.log, s.snapIdx, s.term, s.snapIdx);
  }

  lemma NewAppliedOk(c: Cluster, step: Step, w: int, k: nat, e: LogEntry)
    requires CommitInv(c) && Enabled(c, step) && (w, k, e) in NextHistory(c, step).applied - c.hist.applied
    ensures AppliedOk(c.hist, k, e)
  {
    hide Committed, AnnouncedOk, InstallOk, AppliedOk, MajorityIndex, Covered;
    var s := c.servers[step.i];
    assert CommitOk(c.hist, s);
    assert 0 < k <= s.commitIndex && k < |s.log| && s.log[k] == e;
    Deliver(c.hist, s, k);
  }

  lemma Deliver(h: History, s: Server, k: nat)
    requires CommitOk(h, s) && 0 < k <= s.commitIndex && k < |s.log|
    ensures AppliedOk(h, k, s.log[k])
  {
    var t: nat, i: nat :| Accounts(h, t, i, s.term, s.log, s.commitIndex);
    assert Accounts(h, t, i, t, [], k);
  }

  lemma CommitInitially(n: nat)
    ensures CommitInv(Init(n))
  {
  }

  /** Every step in order keeps what is committed. */
  lemma CommitStep(c: Cluster, step: Step)
    requires Inv(c) && HoldInv(c) && CommitInv(c) && Enabled(c, step) && InOrder(c, step)
    ensures HoldInv(Next(c, step)) && CommitInv(Next(c, step))
  {
    hide Inv, HoldInv, NextHistory, NextServer, NewMessages, InOrder, Extends, ServerInv, HistoryInv,
      MessageInv, CommitOk, AppliedOk, Committed, Prolongs, HeldAtVote, RefusedIsHeld, Covered;
    var n, h, c' := |c.servers|, c.hist, Next(c, step);
    var h' := c'.hist;
    StepLocal(c, step);
    Refusals(c, step);
    HoldStep(c, step);
    HeldEverywhere(c');
    CommitsStep(c, step);
    StepProlongs(c, step);
    forall w | 0 <= w < n
      ensures CommitOk(h', c'.servers[w])
    {
      if w == step.i {
        ActingCommits(c, step);
      } else {
        CommitOkGrows(h, h', c.servers[w]);
      }
    }
    forall to, args | AppendRequest(to, args) in c'.net
      ensures AnnouncedOk(h', args)
    {
      if AppendRequest(to, args) !in c.net {
        NewMessagesOk(c, step, AppendRequest(to, args));
      }
      CoveredGrows(h, h', args.term, [], args.leaderCommit);
    }
    forall to, install | InstallRequest(to, install) in c'.net
      ensures InstallOk(h', install)
    {
      if InstallRequest(to, install) !in c.net {
        NewMessagesOk(c, step, InstallRequest(to, install));
      }
      CoveredGrows(h, h', install.term, [], install.lastIncludedIndex);
    }
    forall w, k, e | (w, k, e) in h'.applied
      ensures AppliedOk(h', k, e)
    {
      if (w, k, e) !in h.applied {
        NewAppliedOk(c, step, w, k, e);
      }
      AppliedGrows(h, h', k, e);
    }
  }

  /** A snapshot no longer than the server's own is part of its log: both are committed. */
  lemma Refusals(c: Cluster, step: Step)
    requires Inv(c) && HoldInv(c) && CommitInv(c) && Enabled(c, step)
    ensures RefusedIsHeld(c, step)
  {
    hide Inv, HoldInv, CommitInv, Covered, NextServer, SameUpTo;
    if step.ReceiveInstallRequest? && step.install.term in c.hist.leaderLog && step.install.term >= c.servers[step.i].term
       && !Replaces(c.servers[step.i], step.install) {
      SnapshotAgrees(c, step.i, step.install.term, step.install.lastIncludedIndex);
    }
  }

  /** A server's log agrees, up to its snapshot, with every leader's log of its term or a later one. */
  lemma SnapshotAgrees(c: Cluster, x: int, u: nat, upTo: nat)
    requires Inv(c) && HoldInv(c) && CommitInv(c) && 0 <= x < |c.servers|
    requires u in c.hist.leaderLog && c.servers[x].term <= u && upTo <= c.servers[x].snapIdx
    ensures SameUpTo(c.hist.leaderLog[u], c.servers[x].log, upTo)
  {
    hide LogOk, HoldInv, HistoryInv, Sound;
    var n, h, s := |c.servers|, c.hist, c.servers[x];
    assert ServerInv(n, h, x, s);
    RecordSound(c);
    if s.snapIdx == 0 {
      SoundParts(n, h);
      LeaderLogOk(n, h, u);
      BothStart(h.leaderLog, h.leaderLog, h.leaderLog[u], s.log);
    } else {
      assert CommitOk(h, s);
      var t: nat, i: nat :| Accounts(h, t, i, s.term, s.log, s.snapIdx);
      SoundParts(n, h);
      CommitInLeader(n, h, t, i, u);
    }
  }

  lemma SoundParts(n: nat, h: History)
    requires Sound(n, h)
    ensures HistoryInv(n, h) && AllHeldAtVotes(h) && AllCommitted(n, h)
  {
  }

  lemma BothStart(ll: Logs, ll': Logs, a: seq<LogEntry>, b: seq<LogEntry>)
    requires LogOk(ll, a) && LogOk(ll', b)
    ensures SameUpTo(a, b, 0)
  {
  }

  lemma HeldEverywhere(c: Cluster)
    requires HoldInv(c)
    ensures AllHeldAtVotes(c.hist)
  {
  }

  // ----- whole runs

  lemma {:induction false} OrderedRunInv(n: nat, run: seq<Cluster>, steps: seq<Step>, k: nat)
    requires IsOrderedRun(n, run, steps) && k < |run|
    ensures Inv(run[k]) && HoldInv(run[k]) && CommitInv(run[k]) && |run[k].servers| == n
  {
    hide Inv, HoldInv, CommitInv, Next, Init, InOrder, Enabled;
    RunInv(n, run, steps, k);
    if k == 0 {
      HoldInitially(n);
      CommitInitially(n);
    } else {
      OrderedRunInv(n, run, steps, k - 1);
      CommitStep(run[k - 1], steps[k - 1]);
    }
  }

  lemma RecordSound(c: Cluster)
    requires Inv(c) && HoldInv(c) && CommitInv(c)
    ensures Sound(|c.servers|, c.hist)
  {
  }

  /** State Machine Safety: no two servers ever apply different entries at the same index. */
  lemma StateMachineSafety(
    n: nat, run: seq<Cluster>, steps: seq<Step>, a: nat, b: nat, x: int, y: int, k: nat, e: LogEntry, f: LogEntry)
    requires IsOrderedRun(n, run, steps) && a <= b < |run|
    requires (x, k, e) in run[a].hist.applied && (y, k, f) in run[b].hist.applied
    ensures e == f
  {
    hide IsOrderedRun, IsRun, Inv, HoldInv, HistoryInv, AllHeldAtVotes, AllCommitted;
    OrderedRunInv(n, run, steps, b);
    OrderedIsRun(n, run, steps);
    RunGrows(n, run, steps, a, b);
    var h := run[b].hist;
    RecordSound(run[b]);
    assert AppliedOk(h, k, e) && AppliedOk(h, k, f);
    var t: nat, i: nat :| Accounts(h, t, i, t, [], k) && h.leaderLog[t][k] == e;
    var u: nat, j: nat :| Accounts(h, u, j, u, [], k) && h.leaderLog[u][k] == f;
    CommitsAgree(n, h, t, i, u, j, k);
  }

  lemma OrderedIsRun(n: nat, run: seq<Cluster>, steps: seq<Step>)
    requires IsOrderedRun(n, run, steps)
    ensures IsRun(n, run, steps)
  {
  }

  /** Leader Completeness over a run: whatever is committed in a term at one moment is in the log of
      every leader of a later term, at any moment, even one before the commit. */
  lemma CommittedReachesLeaders(n: nat, run: seq<Cluster>, steps: seq<Step>, a: nat, b: nat, t: nat, i: nat, y: int)
    requires IsOrderedRun(n, run, steps) && a < |run| && b < |run|
    requires (t, i) in run[a].hist.commits
    requires 0 <= y < |run[b].servers| && run[b].servers[y].role == Leader && run[b].servers[y].term > t
    ensures t in run[a].hist.leaderLog && SameUpTo(run[a].hist.leaderLog[t], run[b].servers[y].log, i)
  {
    hide IsOrderedRun, IsRun, Inv, HoldInv, HistoryInv, AllHeldAtVotes, CommitOk, AnnouncedOk, InstallOk, AppliedOk;
    var m := if a <= b then b else a;
    OrderedRunInv(n, run, steps, a);
    OrderedRunInv(n, run, steps, b);
    OrderedRunInv(n, run, steps, m);
    OrderedIsRun(n, run, steps);
    RunGrows(n, run, steps, a, m);
    RunGrows(n, run, steps, b, m);
    RecordSound(run[m]);
    LeaderLogOnRecord(run[b], y);
    var h, u := run[m].hist, run[b].servers[y].term;
    assert (t, i) in h.commits.Keys;
    assert Committed(n, run[a].hist, t, i, run[a].hist.commits[(t, i)]);
    CommitInLeader(n, h, t, i, u);
    assert GrewInTerm(run[a].hist.leaderLog[t], h.leaderLog[t], t);
    assert GrewInTerm(run[b].hist.leaderLog[u], h.leaderLog[u], u);
    assert h.leaderLog[u][i].term == t;
  }

  /** In particular, what a server holds below its commit index is in the log of every leader of a
      higher term. */
  lemma HeldReachesLeaders(n: nat, run: seq<Cluster>, steps: seq<Step>, a: nat, b: nat, x: int, y: int, k: nat)
    requires IsOrderedRun(n, run, steps) && a < |run| && b < |run|
    requires 0 <= x < |run[a].servers| && 0 <= y < |run[b].servers|
    requires run[b].servers[y].role == Leader && run[b].servers[y].term > run[a].servers[x].term
    requires 0 < k <= run[a].servers[x].commitIndex && k < |run[a].servers[x].log|
    ensures k < |run[b].servers[y].log| && run[b].servers[y].log[k] == run[a].servers[x].log[k]
  {
    hide IsOrderedRun, IsRun, Inv, HoldInv, HistoryInv, AllHeldAtVotes, AnnouncedOk, InstallOk, AppliedOk, Committed;
    OrderedRunInv(n, run, steps, a);
    var s, h := run[a].servers[x], run[a].hist;
    assert CommitOk(h, s);
    var t: nat, i: nat :| Accounts(h, t, i, s.term, s.log, s.commitIndex);
    CommittedReachesLeaders(n, run, steps, a, b, t, i, y);
  }

  lemma LeaderLogOnRecord(c: Cluster, x: int)
    requires Inv(c) && 0 <= x < |c.servers| && c.servers[x].role == Leader
    ensures c.servers[x].term in c.hist.leaderLog && c.hist.leaderLog[c.servers[x].term] == c.servers[x].log
  {
    assert ServerInv(|c.servers|, c.hist, x, c.servers[x]);
  }
}
