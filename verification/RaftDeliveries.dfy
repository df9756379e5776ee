/** What Raft hands to a service: every index from 1 on, and only commands. */
module RaftDeliveries {
  import opened Quorums
  import opened RaftServer
  import opened RaftCluster
  import opened RaftInvariant
  import opened RaftSteps
  import opened RaftRuns
  import opened RaftCompleteness
  import opened RaftSafety
  import opened RaftApplied

  // ----- no gaps

  /** Everything up to `k` was handed over. */
  ghost predicate Covers(h: History, x: int, k: nat) {
    forall j: nat | 1 <= j <= k :: Handed(h, x, j)
  }

  ghost predicate CoverInv(c: Cluster) {
    && (forall x | 0 <= x < |c.servers| ::
          var s := c.servers[x]; !s.snapPending && Covers(c.hist, x, s.lastApplied) && Covers(c.hist, x, s.snapIdx))
    && (forall d | d in c.hist.applied :: Covers(c.hist, d.0, d.1))
  }

  lemma CoversGrows(h: History, h': History, x: int, k: nat)
    requires h.applied <= h'.applied && Covers(h, x, k)
    ensures Covers(h', x, k)
  {
    forall j: nat | 1 <= j <= k
      ensures Handed(h', x, j)
    {
      assert Handed(h, x, j);
    }
  }

  /** A round of the ticker continues where the last one, or the snapshot, ended. */
  lemma ApplyCovers(h: History, h': History, x: int, s: Server, k: nat)
    requires h' == h.(applied := h.applied + Deliveries(s, x)) && k < |s.log|
    requires Covers(h, x, ApplyFrom(s)) && k <= Max(ApplyFrom(s), if ApplyTo(s) > 0 then ApplyTo(s) else 0)
    ensures Covers(h', x, k)
  {
    forall j: nat | 1 <= j <= k
      ensures Handed(h', x, j)
    {
      if j <= ApplyFrom(s) {
        assert Handed(h, x, j);
      } else {
        assert (x, j, s.log[j]) in Deliveries(s, x);
      }
    }
  }

  /** Which steps move what a server has applied or snapshotted. */
  lemma IndexesKept(c: Cluster, step: Step)
    requires Inv(c) && Enabled(c, step) && !Installing(step) && !step.ApplyCommitted? && !c.servers[step.i].snapPending
    ensures var s, s' := c.servers[step.i], NextServer(c, step);
            && !s'.snapPending
            && (s'.lastApplied == s.lastApplied || s'.lastApplied == s.snapIdx)
            && (s'.snapIdx == s.snapIdx || (step.ServiceSnapshot? && s'.snapIdx == step.index))
            && NextHistory(c, step).applied == c.hist.applied
  {
    hide Inv, MajorityIndex, MoreUpToDate, BackOff;
    SavedBoundary(c, step.i);
  }

  lemma SavedBoundary(c: Cluster, x: int)
    requires Inv(c) && 0 <= x < |c.servers|
    ensures c.servers[x].disk.snapIdx == c.servers[x].snapIdx
  {
    assert ServerInv(|c.servers|, c.hist, x, c.servers[x]);
  }

  lemma ActingCovers(c: Cluster, step: Step)
    requires Inv(c) && CoverInv(c) && Enabled(c, step) && !Installing(step)
    ensures var s', h' := NextServer(c, step), NextHistory(c, step);
            && !s'.snapPending && Covers(h', step.i, s'.lastApplied) && Covers(h', step.i, s'.snapIdx)
            && forall d | d in h'.applied :: Covers(h', d.0, d.1)
  {
    hide Covers, LogOk, HistoryInv, MessageInv, ServerInv;
    var h, h', i := c.hist, NextHistory(c, step), step.i;
    var s, s' := c.servers[i], NextServer(c, step);
    RecordGrows(c, step);
    CoversGrows(h, h', i, s.lastApplied);
    CoversGrows(h, h', i, s.snapIdx);
    if step.ApplyCommitted? {
      if ApplyTo(s) > ApplyFrom(s) {
        ApplyCovers(h, h', i, s, s'.lastApplied);
      }
      forall d | d in h'.applied
        ensures Covers(h', d.0, d.1)
      {
        if d in h.applied {
          CoversGrows(h, h', d.0, d.1);
        } else {
          ApplyCovers(h, h', i, s, d.1);
        }
      }
    } else {
      IndexesKept(c, step);
      if step.ServiceSnapshot? {
        var d :| d in h.applied && d.0 == i && d.1 == step.index;
        CoversGrows(h, h', d.0, d.1);
      }
      forall d | d in h'.applied
        ensures Covers(h', d.0, d.1)
      {
        CoversGrows(h, h', d.0, d.1);
      }
    }
  }

  lemma CoverStep(c: Cluster, step: Step)
    requires Inv(c) && CoverInv(c) && Enabled(c, step) && !Installing(step)
    ensures CoverInv(Next(c, step))
  {
    hide Inv, Covers, NextServer, NextHistory;
    var h, h' := c.hist, NextHistory(c, step);
    ActingCovers(c, step);
    RecordGrows(c, step);
    forall x | 0 <= x < |c.servers| && x != step.i
      ensures Covers(h', x, c.servers[x].lastApplied) && Covers(h', x, c.servers[x].snapIdx)
    {
      CoversGrows(h, h', x, c.servers[x].lastApplied);
      CoversGrows(h, h', x, c.servers[x].snapIdx);
    }
  }

  lemma {:induction false} RunCovers(n: nat, run: seq<Cluster>, steps: seq<Step>, b: nat)
    requires IsRun(n, run, steps) && b < |run| && forall k | 0 <= k < |steps| :: !Installing(steps[k])
    ensures CoverInv(run[b])
  {
    hide Inv, CoverInv, Next, Enabled, Init;
    if b == 0 {
      CoversInitially(n);
    } else {
      RunInv(n, run, steps, b - 1);
      RunCovers(n, run, steps, b - 1);
      CoverStep(run[b - 1], steps[b - 1]);
    }
  }

  lemma CoversInitially(n: nat)
    ensures CoverInv(Init(n))
  {
  }

  /** In every run that meets the delivery hypothesis and installs no snapshot, a service has been
      handed, without a gap, exactly what its server's log holds up to `lastApplied`. */
  lemma DeliveriesCover(n: nat, run: seq<Cluster>, steps: seq<Step>, b: nat, x: int, k: nat)
    requires IsOrderedRun(n, run, steps) && b < |run| && forall j | 0 <= j < |steps| :: !Installing(steps[j])
    requires 0 <= x < |run[b].servers| && 1 <= k <= run[b].servers[x].lastApplied
    ensures k < |run[b].servers[x].log| && (x, k, run[b].servers[x].log[k]) in run[b].hist.applied
  {
    hide IsOrderedRun, IsRun;
    OrderedIsRun(n, run, steps);
    RunCovers(n, run, steps, b);
    assert Handed(run[b].hist, x, k);
    var d :| d in run[b].hist.applied && d.0 == x && d.1 == k;
    AppliedStays(n, run, steps, b, b, x, k, d.2);
  }

  // ----- only commands

  /** Every entry but the dummy was made by `Start`. */
  ghost predicate AllCommands(log: seq<LogEntry>) {
    forall k | 0 < k < |log| :: log[k].commandValid
  }

  ghost predicate CommandInv(h: History) {
    forall t | t in h.leaderLog :: AllCommands(h.leaderLog[t])
  }

  lemma SoundLogCommands(h: History, log: seq<LogEntry>)
    requires CommandInv(h) && LogOk(h.leaderLog, log)
    ensures AllCommands(log)
  {
    forall k | 0 < k < |log|
      ensures log[k].commandValid
    {
      assert SameUpTo(log, h.leaderLog[log[k].term], k);
    }
  }

  lemma CommandStep(c: Cluster, step: Step)
    requires Inv(c) && CommandInv(c.hist) && Enabled(c, step)
    ensures CommandInv(NextHistory(c, step))
  {
    hide LogOk, HistoryInv, MessageInv, MajorityIndex, MoreUpToDate, BackOff, AllCommands;
    var s := c.servers[step.i];
    assert ServerInv(|c.servers|, c.hist, step.i, s);
    SoundLogCommands(c.hist, s.log);
    OneMoreCommand(s.log, s.term, if step.ClientStart? then step.command else "");
  }

  lemma OneMoreCommand(log: seq<LogEntry>, term: nat, command: Command)
    requires AllCommands(log)
    ensures AllCommands(log + [LogEntry(term, true, command)])
  {
  }
}
