/** No reply handler and no replication round looks up an entry its log does not hold, or an entry of
    its books that is not there, whatever the network does.  `Snapshot` is another matter: see
    RaftApplied and RaftCounterexample. */
module RaftRange {
  import opened Quorums
  import opened RaftServer
  import opened RaftCluster
  import opened RaftInvariant
  import opened RaftSteps
  import opened RaftRuns

  /** `s` is the sender of the exchange and still leads its term. */
  ghost predicate StillLeads(s: Server, i: int, leaderId: int, term: nat) {
    i == leaderId && s.role == Leader && s.term == term
  }

  /** While the sender leads, its boundary has not passed where the exchange starts, or everything
      up to the boundary is committed. */
  ghost predicate InFlight(i: int, s: Server, m: Message) {
    match m
    case AppendRequest(_, args) => StillLeads(s, i, args.leaderId, args.term) ==> Near(s, args.prevLogIndex)
    case AppendResponse(_, args, _) => StillLeads(s, i, args.leaderId, args.term) ==> Near(s, args.prevLogIndex)
    case InstallRequest(_, install) => StillLeads(s, i, install.leaderId, install.term) ==> Near(s, install.lastIncludedIndex)
    case InstallResponse(_, install, _) => StillLeads(s, i, install.leaderId, install.term) ==> Near(s, install.lastIncludedIndex)
    case _ => true
  }

  ghost predicate Near(s: Server, index: int) {
    s.snapIdx <= s.commitIndex || s.snapIdx <= index
  }

  ghost predicate RangeInv(c: Cluster) {
    forall i, m | 0 <= i < |c.servers| && m in c.net :: InFlight(i, c.servers[i], m)
  }

  /** A server that leads on has not moved its boundary past what is committed. */
  lemma LeaderStays(c: Cluster, step: Step)
    requires Inv(c) && Enabled(c, step)
    requires var s, s' := c.servers[step.i], NextServer(c, step); s.role == Leader && s'.role == Leader
    ensures var s, s' := c.servers[step.i], NextServer(c, step);
            && s'.term == s.term && s'.commitIndex >= s.commitIndex
            && (s'.snapIdx == s.snapIdx || s'.snapIdx <= s'.commitIndex)
  {
    hide LogOk, HistoryInv, ServerInv, MessageInv, MajorityIndex, MoreUpToDate, BackOff;
  }

  /** Only a vote makes a leader, of a term that had none. */
  lemma ElectedNow(c: Cluster, step: Step)
    requires Inv(c) && Enabled(c, step)
    requires c.servers[step.i].role != Leader && NextServer(c, step).role == Leader
    ensures NextServer(c, step).term !in c.hist.leaderLog
  {
    hide Inv, HistoryInv, ServerInv, MessageInv, Majority, MajorityIndex, MoreUpToDate, BackOff;
    var n, h, i, s := |c.servers|, c.hist, step.i, c.servers[step.i];
    assert step.ReceiveVoteResponse?;
    ServerKept(c, i);
    MessageKept(c, VoteResponse(step.from, step.ask, step.vote));
    var votes := s.votes + {step.from};
    VoteCounted(n, h, i, s, step.from, step.ask, step.vote);
    MoreThanHalf(n, votes);
    NoLeaderYet(n, h, i, s, votes);
  }

  /** A newly elected leader has nothing in flight. */
  lemma NewlyElected(c: Cluster, step: Step, m: Message)
    requires Inv(c) && Enabled(c, step) && m in c.net
    requires c.servers[step.i].role != Leader && NextServer(c, step).role == Leader
    ensures InFlight(step.i, NextServer(c, step), m)
  {
    hide Inv, NextServer, HistoryInv, ServerInv;
    ElectedNow(c, step);
    MessageKept(c, m);
  }

  lemma OldInFlight(c: Cluster, step: Step, m: Message)
    requires Inv(c) && RangeInv(c) && Enabled(c, step) && m in c.net
    ensures InFlight(step.i, NextServer(c, step), m)
  {
    hide Inv, NextServer;
    var s, s' := c.servers[step.i], NextServer(c, step);
    if s'.role == Leader {
      if s.role == Leader {
        LeaderStays(c, step);
        assert InFlight(step.i, s, m);
      } else {
        NewlyElected(c, step, m);
      }
    }
  }

  /** The request a response answers. */
  lemma NewInFlight(c: Cluster, step: Step, i: int, m: Message)
    requires Inv(c) && RangeInv(c) && Enabled(c, step) && m in NewMessages(c, step) && 0 <= i < |c.servers|
    ensures InFlight(i, Next(c, step).servers[i], m)
  {
    hide LogOk, HistoryInv, ServerInv, MessageInv, MajorityIndex, MoreUpToDate, BackOff;
    match step
    case ReceiveAppendRequest(j, args) =>
      if i == j {
        OldInFlight(c, step, AppendRequest(j, args));
      } else {
        assert InFlight(i, c.servers[i], AppendRequest(j, args));
      }
    case ReceiveInstallRequest(j, install) =>
      if i == j {
        OldInFlight(c, step, InstallRequest(j, install));
      } else {
        assert InFlight(i, c.servers[i], InstallRequest(j, install));
      }
    case _ =>
  }

  lemma StepInRange(c: Cluster, step: Step)
    requires Inv(c) && RangeInv(c) && Enabled(c, step)
    ensures RangeInv(Next(c, step))
  {
    hide Inv, InFlight, NextServer, NewMessages, NextHistory;
    var c' := Next(c, step);
    forall i, m | 0 <= i < |c'.servers| && m in c'.net
      ensures InFlight(i, c'.servers[i], m)
    {
      if m !in c.net {
        NewInFlight(c, step, i, m);
      } else if i == step.i {
        OldInFlight(c, step, m);
      } else {
        assert InFlight(i, c.servers[i], m);
      }
    }
  }

  lemma {:induction false} RunInRange(n: nat, run: seq<Cluster>, steps: seq<Step>, k: nat)
    requires IsRun(n, run, steps) && k < |run|
    ensures RangeInv(run[k])
  {
    hide Inv, Enabled, Next, RangeInv;
    if k == 0 {
      InitInRange(n);
    } else {
      RunInv(n, run, steps, k - 1);
      RunInRange(n, run, steps, k - 1);
      StepInRange(run[k - 1], steps[k - 1]);
    }
  }

  lemma InitInRange(n: nat)
    ensures RangeInv(Init(n))
  {
  }

  /** The range conditions of `Enabled` hold of every reachable cluster and every message that is on
      its way to a server, so neither the reply handlers nor `startReplication` panic. */
  lemma HandlersInRange(n: nat, run: seq<Cluster>, steps: seq<Step>, k: nat, i: int)
    requires IsRun(n, run, steps) && k < |run| && 0 <= i < |run[k].servers|
    ensures var s := run[k].servers[i];
            && BooksInRange(s, n)
            && (forall from, args, reply | AppendResponse(from, args, reply) in run[k].net && args.leaderId == i ::
                  RepliesInRange(s, n, from, args))
            && (forall from, install, term | InstallResponse(from, install, term) in run[k].net && install.leaderId == i ::
                  InstallInRange(s, n, from, install))
            && (s.role == Leader ==> forall p | 0 <= p < n :: CanReplicate(s, p) || Behind(s, p))
  {
    hide IsRun, LogOk, HistoryInv, Inv;
    RunInv(n, run, steps, k);
    RunInRange(n, run, steps, k);
    var c := run[k];
    var s := c.servers[i];
    ServerKept(c, i);
    forall from, args, reply | AppendResponse(from, args, reply) in c.net && args.leaderId == i
      ensures RepliesInRange(s, n, from, args)
    {
      MessageKept(c, AppendResponse(from, args, reply));
      assert InFlight(i, s, AppendResponse(from, args, reply));
    }
    forall from, install, term | InstallResponse(from, install, term) in c.net && install.leaderId == i
      ensures InstallInRange(s, n, from, install)
    {
      MessageKept(c, InstallResponse(from, install, term));
      assert InFlight(i, s, InstallResponse(from, install, term));
    }
  }

  lemma ServerKept(c: Cluster, i: int)
    requires Inv(c) && 0 <= i < |c.servers|
    ensures HistoryInv(|c.servers|, c.hist) && ServerInv(|c.servers|, c.hist, i, c.servers[i])
  {
  }

  lemma MessageKept(c: Cluster, m: Message)
    requires Inv(c) && m in c.net
    ensures MessageInv(|c.servers|, c.hist, m)
  {
  }
}
