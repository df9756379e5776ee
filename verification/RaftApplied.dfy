/** What a service was handed stays in its server's log, on runs that meet the delivery hypothesis; so
    a snapshot at any index it was handed finds its entry. */
module RaftApplied {
  import opened Quorums
  import opened RaftServer
  import opened RaftCluster
  import opened RaftInvariant
  import opened RaftSteps
  import opened RaftRuns
  import opened RaftCompleteness
  import opened RaftSafety

  /** An entry of the server's current term is one it acknowledged, or its own as leader. */
  ghost predicate OwnTerm(h: History, x: int, s: Server) {
    forall k: nat | 0 < k < |s.log| && s.log[k].term == s.term ::
      (s.term in h.elections && h.elections[s.term].leader == x) || Acked(h, x, s.term, k)
  }

  /** The server's log holds committed entries up to `k`. */
  ghost predicate Firm(h: History, s: Server, k: nat) {
    0 < k < |s.log| && Covered(h, s.term, s.log, k)
  }

  ghost predicate AppliedHere(c: Cluster, x: int, k: nat, e: LogEntry) {
    0 <= x < |c.servers| && Firm(c.hist, c.servers[x], k) && c.servers[x].log[k] == e
  }

  ghost predicate AppliedInv(c: Cluster) {
    && (forall x | 0 <= x < |c.servers| :: OwnTerm(c.hist, x, c.servers[x]))
    && (forall x, k, e | (x, k, e) in c.hist.applied :: AppliedHere(c, x, k, e))
  }

  // ----- entries of the current term

  lemma OwnTermSame(h: History, h': History, i: int, x: int, s: Server, s': Server)
    requires Extends(h, h', i) && OwnTerm(h, x, s) && TermsUpTo(s.log, s.term)
    requires s'.log == s.log && s.term <= s'.term
    ensures OwnTerm(h', x, s')
  {
    forall k: nat | 0 < k < |s'.log| && s'.log[k].term == s'.term
      ensures (s'.term in h'.elections && h'.elections[s'.term].leader == x) || Acked(h', x, s'.term, k)
    {
      assert s'.term == s.term;
    }
  }

  lemma OwnTermAcked(h: History, x: int, s: Server)
    requires (x, s.term) in h.acked && |s.log| - 1 <= h.acked[(x, s.term)]
    ensures OwnTerm(h, x, s)
  {
  }

  ghost predicate ReplacesLog(c: Cluster, step: Step)
    requires Enabled(c, step)
  {
    || (step.ReceiveAppendRequest? && AppendEntries(c.servers[step.i], step.args).1.success)
    || (step.ReceiveInstallRequest? && Replaces(c.servers[step.i], step.install))
  }

  /** What an accepted request, or an installed snapshot, leaves is acknowledged. */
  lemma ReplacedOwnTerm(c: Cluster, step: Step)
    requires Inv(c) && Enabled(c, step) && ReplacesLog(c, step)
    ensures OwnTerm(NextHistory(c, step), step.i, NextServer(c, step))
  {
    hide LogOk, HistoryInv;
    var n, h, i := |c.servers|, c.hist, step.i;
    var s, s', h' := c.servers[i], NextServer(c, step), NextHistory(c, step);
    assert ServerInv(n, h, i, s);
    if step.ReceiveAppendRequest? {
      assert MessageInv(n, h, AppendRequest(i, step.args));
      AcceptedServer(n, h, i, s, step.args);
      OwnTermAcked(h', i, s');
    } else {
      assert MessageInv(n, h, InstallRequest(i, step.install));
      OwnTermAcked(h', i, s');
    }
  }

  lemma ActingOwnTerm(c: Cluster, step: Step)
    requires Inv(c) && Enabled(c, step) && OwnTerm(c.hist, step.i, c.servers[step.i])
    requires Extends(c.hist, NextHistory(c, step), step.i)
    requires ServerInv(|c.servers|, NextHistory(c, step), step.i, NextServer(c, step))
    ensures OwnTerm(NextHistory(c, step), step.i, NextServer(c, step))
  {
    hide OwnTerm, NextHistory, NextServer, Extends, ServerInv, Inv, LogOk, HistoryInv, MessageInv;
    var s, s' := c.servers[step.i], NextServer(c, step);
    if ReplacesLog(c, step) {
      ReplacedOwnTerm(c, step);
    } else if step.ClientStart? && s.role == Leader {
      LeaderOwnTerm(c, step);
    } else {
      LogKept(c, step);
      ServerTerms(c, step.i);
      OwnTermSame(c.hist, NextHistory(c, step), step.i, step.i, s, s');
    }
  }

  lemma LeaderOwnTerm(c: Cluster, step: Step)
    requires Inv(c) && Enabled(c, step) && step.ClientStart? && c.servers[step.i].role == Leader
    requires ServerInv(|c.servers|, NextHistory(c, step), step.i, NextServer(c, step))
    ensures OwnTerm(NextHistory(c, step), step.i, NextServer(c, step))
  {
  }

  lemma ServerTerms(c: Cluster, x: int)
    requires Inv(c) && 0 <= x < |c.servers|
    ensures TermsUpTo(c.servers[x].log, c.servers[x].term)
  {
    assert ServerInv(|c.servers|, c.hist, x, c.servers[x]);
  }

  // ----- firm entries stay

  /** An accepted request in order reaches past every firm entry, and agrees with it. */
  lemma AcceptKeeps(n: nat, h: History, i: int, s: Server, args: AppendEntriesArgs, k: nat)
    requires Sound(n, h) && OwnTerm(h, i, s) && Firm(h, s, k) && AppendInv(h, i, args) && s.term <= args.term
    requires Reaches(h.acked, i, args.term, End(args)) && LogOk(h.leaderLog, s.log)
    ensures SameUpTo(s.log, h.leaderLog[args.term][..End(args) + 1], k)
  {
    hide HistoryInv, AllHeldAtVotes, AllCommitted, LogOk;
    var u, ll := args.term, h.leaderLog;
    var t: nat, j: nat :| Accounts(h, t, j, s.term, s.log, k);
    CommitInLeader(n, h, t, j, u);
    assert SameUpTo(s.log, ll[u], k);
    CommitTerm(n, h, t, k);
    assert s.log[k].term <= t;
    assert k <= End(args);
  }

  /** A leader's log holds nothing of a later term. */
  lemma CommitTerm(n: nat, h: History, t: nat, k: nat)
    requires HistoryInv(n, h) && t in h.leaderLog && k < |h.leaderLog[t]|
    ensures h.leaderLog[t][k].term <= t
  {
    hide LogOk, HistoryInv;
    LeaderLogOk(n, h, t);
  }

  /** A snapshot no shorter than the log agrees with every firm entry. */
  lemma InstallKeeps(n: nat, h: History, i: int, s: Server, install: InstallSnapshotArgs, k: nat)
    requires Sound(n, h) && Firm(h, s, k) && InstallInv(h, i, install) && s.term <= install.term
    requires install.lastIncludedIndex >= |s.log| - 1
    ensures SameUpTo(s.log, install.snapshot, k)
  {
    hide HistoryInv, AllHeldAtVotes, AllCommitted, LogOk;
    var t: nat, j: nat :| Accounts(h, t, j, s.term, s.log, k);
    CommitInLeader(n, h, t, j, install.term);
  }

  /** Every step in order leaves the acting server's log as it was up to any firm entry. */
  lemma FirmStays(c: Cluster, step: Step, k: nat)
    requires Inv(c) && HoldInv(c) && CommitInv(c) && Enabled(c, step) && InOrder(c, step)
    requires OwnTerm(c.hist, step.i, c.servers[step.i]) && Firm(c.hist, c.servers[step.i], k)
    ensures SameUpTo(c.servers[step.i].log, NextServer(c, step).log, k)
    ensures c.servers[step.i].term <= NextServer(c, step).term
  {
    hide OwnTerm, Firm, LogOk, HistoryInv, HoldInv, CommitInv, Sound;
    var n, h, i := |c.servers|, c.hist, step.i;
    var s := c.servers[i];
    RecordSound(c);
    assert ServerInv(n, h, i, s);
    FirmIsHeld(h, s, k);
    if ReplacesLog(c, step) {
      if step.ReceiveAppendRequest? {
        assert MessageInv(n, h, AppendRequest(i, step.args));
        SoundParts(n, h);
        AcceptedServer(n, h, i, s, step.args);
        AcceptKeeps(n, h, i, s, step.args, k);
      } else {
        assert MessageInv(n, h, InstallRequest(i, step.install));
        InstallKeeps(n, h, i, s, step.install, k);
      }
    } else if !(step.ClientStart? && s.role == Leader) {
      LogKept(c, step);
    }
  }

  lemma FirmIsHeld(h: History, s: Server, k: nat)
    requires Firm(h, s, k)
    ensures 0 < k < |s.log|
  {
  }

  lemma StillFirm(h: History, h': History, s: Server, s': Server, k: nat)
    requires Firm(h, s, k) && Prolongs(h, h') && SameUpTo(s.log, s'.log, k) && s.term <= s'.term
    ensures Firm(h', s', k)
  {
    hide Prolongs;
    var t: nat, i: nat :| Accounts(h, t, i, s.term, s.log, k);
    AccountsGrows(h, h', t, i, s.term, s.log, k);
    assert Accounts(h', t, i, s'.term, s'.log, k);
  }

  // ----- every step

  lemma NewlyApplied(c: Cluster, step: Step, x: int, k: nat, e: LogEntry)
    requires Inv(c) && CommitInv(c) && Enabled(c, step) && (x, k, e) in NextHistory(c, step).applied - c.hist.applied
    ensures x == step.i && Firm(c.hist, c.servers[x], k) && c.servers[x].log[k] == e
    ensures NextServer(c, step).log == c.servers[x].log && NextServer(c, step).term == c.servers[x].term
  {
    hide Committed, AnnouncedOk, InstallOk, AppliedOk, MajorityIndex, Covered, LogOk, HistoryInv, ServerInv, MessageInv;
    var s := c.servers[step.i];
    assert CommitOk(c.hist, s);
    CoveredLess(c.hist, s.term, s.log, s.commitIndex, s.term, k);
  }

  /** A step in order keeps the entries that were handed over where they were. */
  lemma AppliedStep(c: Cluster, step: Step)
    requires Inv(c) && HoldInv(c) && CommitInv(c) && AppliedInv(c) && Enabled(c, step) && InOrder(c, step)
    ensures AppliedInv(Next(c, step))
  {
    hide Inv, HoldInv, CommitInv, OwnTerm, Firm, NextHistory, NextServer, NewMessages, InOrder, Extends, ServerInv,
      HistoryInv, MessageInv, Prolongs, SameUpTo, TermsUpTo;
    var h, c' := c.hist, Next(c, step);
    StepLocal(c, step);
    StepProlongs(c, step);
    forall x | 0 <= x < |c'.servers|
      ensures OwnTerm(c'.hist, x, c'.servers[x])
    {
      if x == step.i {
        ActingOwnTerm(c, step);
      } else {
        ServerTerms(c, x);
        OwnTermSame(h, c'.hist, step.i, x, c.servers[x], c.servers[x]);
      }
    }
    forall x, k, e | (x, k, e) in c'.hist.applied
      ensures AppliedHere(c', x, k, e)
    {
      if (x, k, e) !in h.applied {
        NewlyApplied(c, step, x, k, e);
      }
      FirmIsHeld(h, c.servers[x], k);
      if x == step.i {
        FirmStays(c, step, k);
        SameAt(c.servers[x].log, c'.servers[x].log, k);
      } else {
        SameItself(c.servers[x].log, k);
      }
      StillFirm(h, c'.hist, c.servers[x], c'.servers[x], k);
    }
  }

  lemma SameAt(a: seq<LogEntry>, b: seq<LogEntry>, k: nat)
    requires SameUpTo(a, b, k)
    ensures k < |a| && k < |b| && a[k] == b[k]
  {
  }

  lemma {:induction false} OrderedRunApplied(n: nat, run: seq<Cluster>, steps: seq<Step>, k: nat)
    requires IsOrderedRun(n, run, steps) && k < |run|
    ensures AppliedInv(run[k])
  {
    hide Inv, HoldInv, CommitInv, AppliedInv, Next, Init, InOrder, Enabled;
    if k == 0 {
      AppliedInitially(n);
    } else {
      OrderedRunInv(n, run, steps, k - 1);
      OrderedRunApplied(n, run, steps, k - 1);
      AppliedStep(run[k - 1], steps[k - 1]);
    }
  }

  lemma AppliedInitially(n: nat)
    ensures AppliedInv(Init(n))
  {
  }

  /** What a service was handed once is in its server's log, at that index, ever after. */
  lemma AppliedStays(n: nat, run: seq<Cluster>, steps: seq<Step>, a: nat, b: nat, x: int, k: nat, e: LogEntry)
    requires IsOrderedRun(n, run, steps) && a <= b < |run| && (x, k, e) in run[a].hist.applied
    ensures 0 <= x < |run[b].servers| && 0 < k < |run[b].servers[x].log| && run[b].servers[x].log[k] == e
  {
    hide IsOrderedRun, IsRun, OwnTerm;
    OrderedIsRun(n, run, steps);
    RunGrows(n, run, steps, a, b);
    OrderedRunApplied(n, run, steps, b);
    assert AppliedHere(run[b], x, k, e);
  }

  /** `Snapshot` does not panic: its index, which the service was handed, is in the log. */
  lemma SnapshotsInRange(n: nat, run: seq<Cluster>, steps: seq<Step>, b: nat, x: int, index: nat)
    requires IsOrderedRun(n, run, steps) && b < |run|
    requires 0 <= x < |run[b].servers| && Handed(run[b].hist, x, index)
    ensures index < |run[b].servers[x].log| && !SnapshotPanics(run[b].servers[x], index)
  {
    hide IsOrderedRun;
    var d :| d in run[b].hist.applied && d.0 == x && d.1 == index;
    AppliedStays(n, run, steps, b, b, x, index, d.2);
  }
}
