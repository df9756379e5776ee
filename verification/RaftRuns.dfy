/** Election Safety and Log Matching, over whole runs with loss, reordering, duplication and crashes. */
module RaftRuns {
  import opened RaftServer
  import opened RaftCluster
  import opened RaftInvariant
  import opened RaftSteps

  /** What a record keeps forever. */
  ghost predicate Grown(h: History, h': History) {
    && (forall t | t in h.elections :: t in h'.elections && h'.elections[t] == h.elections[t])
    && LogsGrow(h.leaderLog, h'.leaderLog)
    && (forall t | t in h.leaderLog :: t in h'.leaderLog && GrewInTerm(h.leaderLog[t], h'.leaderLog[t], t))
    && h.commits.Keys <= h'.commits.Keys && h.applied <= h'.applied
  }

  lemma StepGrows(c: Cluster, step: Step)
    requires Inv(c) && Enabled(c, step)
    ensures Grown(c.hist, Next(c, step).hist) && |Next(c, step).servers| == |c.servers|
  {
    hide Inv, NextHistory, NextServer, NewMessages, HistoryInv, ServerInv, MessageInv;
    StepLocal(c, step);
    ExtendsLogs(c.hist, NextHistory(c, step), step.i);
    RecordGrows(c, step);
  }

  lemma RecordGrows(c: Cluster, step: Step)
    requires Enabled(c, step)
    ensures c.hist.commits.Keys <= NextHistory(c, step).commits.Keys && c.hist.applied <= NextHistory(c, step).applied
  {
    hide NextServer, AppendEntries, RequestVote;
  }

  lemma {:induction false} RunInv(n: nat, run: seq<Cluster>, steps: seq<Step>, k: nat)
    requires IsRun(n, run, steps) && k < |run|
    ensures Inv(run[k]) && |run[k].servers| == n
  {
    hide Inv, Next, Init;
    if k == 0 {
      InitInv(n);
      InitSize(n);
    } else {
      RunInv(n, run, steps, k - 1);
      StepKeeps(run[k - 1], steps[k - 1]);
      StepGrows(run[k - 1], steps[k - 1]);
    }
  }

  lemma InitSize(n: nat)
    ensures |Init(n).servers| == n
  {
  }

  lemma {:induction false} RunGrows(n: nat, run: seq<Cluster>, steps: seq<Step>, a: nat, b: nat)
    requires IsRun(n, run, steps) && a <= b < |run|
    ensures Grown(run[a].hist, run[b].hist)
    decreases b - a
  {
    hide Inv, Next, Enabled;
    if a < b {
      RunGrows(n, run, steps, a, b - 1);
      RunInv(n, run, steps, b - 1);
      StepGrows(run[b - 1], steps[b - 1]);
    }
  }

  lemma LeaderOnRecord(c: Cluster, x: int)
    requires Inv(c) && 0 <= x < |c.servers| && c.servers[x].role == Leader
    ensures c.servers[x].term in c.hist.elections && c.hist.elections[c.servers[x].term].leader == x
  {
    assert ServerInv(|c.servers|, c.hist, x, c.servers[x]);
  }

  lemma LogOnRecord(c: Cluster, x: int)
    requires Inv(c) && 0 <= x < |c.servers|
    ensures LogOk(c.hist.leaderLog, c.servers[x].log)
  {
    assert ServerInv(|c.servers|, c.hist, x, c.servers[x]);
  }

  /** Election Safety: whoever leads a term at any two moments of a run is the same server. */
  lemma ElectionSafety(n: nat, run: seq<Cluster>, steps: seq<Step>, a: nat, b: nat, x: int, y: int)
    requires IsRun(n, run, steps) && a <= b < |run|
    requires 0 <= x < |run[a].servers| && 0 <= y < |run[b].servers|
    requires run[a].servers[x].role == Leader && run[b].servers[y].role == Leader
    requires run[a].servers[x].term == run[b].servers[y].term
    ensures x == y
  {
    hide Inv, IsRun;
    RunInv(n, run, steps, a);
    RunInv(n, run, steps, b);
    RunGrows(n, run, steps, a, b);
    LeaderOnRecord(run[a], x);
    LeaderOnRecord(run[b], y);
  }

  /** Log Matching: two logs, at any two moments of a run, that hold the same term at an index are
      identical up to it; and terms never decrease along a log. */
  lemma LogMatching(n: nat, run: seq<Cluster>, steps: seq<Step>, a: nat, b: nat, x: int, y: int, i: int)
    requires IsRun(n, run, steps) && a <= b < |run|
    requires 0 <= x < |run[a].servers| && 0 <= y < |run[b].servers|
    requires 0 <= i < |run[a].servers[x].log| && i < |run[b].servers[y].log|
    requires run[a].servers[x].log[i].term == run[b].servers[y].log[i].term
    ensures forall k | 0 <= k <= i :: run[a].servers[x].log[k] == run[b].servers[y].log[k]
    ensures forall k | 0 <= k <= i :: run[a].servers[x].log[k].term <= run[a].servers[x].log[i].term
  {
    hide Inv, IsRun;
    RunInv(n, run, steps, a);
    RunInv(n, run, steps, b);
    RunGrows(n, run, steps, a, b);
    LogOnRecord(run[a], x);
    LogOnRecord(run[b], y);
    LogOkGrows(run[a].hist.leaderLog, run[b].hist.leaderLog, run[a].servers[x].log);
    SameTermSameLog(run[b].hist.leaderLog, run[a].servers[x].log, run[b].servers[y].log, i);
  }
}
