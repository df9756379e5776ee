/** What holds of every run of the whole system: Raft, the channels, and the services on top. */
module ReplicatedService {
  import opened RaftServer
  import opened RaftCluster
  import opened RaftInvariant
  import opened RaftSteps
  import opened RaftRuns
  import opened RaftCompleteness
  import opened RaftSafety
  import opened RaftApplied
  import opened RaftDeliveries
  import K = KvReplay
  import opened ServiceOnRaft

  // ----- runs

  /** A run of `n` servers and their services, from nothing. */
  ghost predicate IsSystemRun(n: nat, run: seq<System>, moves: seq<Move>, decode: Decoder) {
    && |run| == |moves| + 1 && run[0] == NewSystem(n)
    && forall k | 0 <= k < |moves| :: CanMove(run[k], moves[k]) && run[k + 1] == After(run[k], moves[k], decode)
  }

  lemma StartInv(n: nat, decode: Decoder)
    ensures SystemInv(NewSystem(n), decode)
  {
    hide Inv, HoldInv, CommitInv, AppliedInv;
    InitInv(n);
    HoldInitially(n);
    CommitInitially(n);
    AppliedInitially(n);
    var v := NewSystem(n);
    forall x | 0 <= x < n
      ensures HostInv(v.cluster, x, v.hosts[x], decode)
    {
      assert Operations([Dummy()], 0, decode) == [];
    }
  }

  lemma {:induction false} SystemRunInv(n: nat, run: seq<System>, moves: seq<Move>, decode: Decoder, k: nat)
    requires IsSystemRun(n, run, moves, decode) && k < |run|
    ensures SystemInv(run[k], decode)
  {
    hide SystemInv, CanMove, After, NewSystem;
    if k == 0 {
      StartInv(n, decode);
    } else {
      SystemRunInv(n, run, moves, decode, k - 1);
      if moves[k - 1].Protocol? {
        ProtocolStep(run[k - 1], moves[k - 1].step, decode);
      } else {
        ServiceStep(run[k - 1], moves[k - 1].i, moves[k - 1].large, decode);
      }
    }
  }

  /** Two servers' logs agree as far as both have applied. */
  lemma FirmLogsAgree(c: Cluster, x: int, y: int, a: nat, b: nat, k: nat)
    requires RaftInv(c) && 0 <= x < |c.servers| && 0 <= y < |c.servers|
    requires FirmTo(c.hist, c.servers[x], a) && FirmTo(c.hist, c.servers[y], b) && k <= a && k <= b
    ensures SameUpTo(c.servers[x].log, c.servers[y].log, k)
  {
    hide Inv, HoldInv, CommitInv, AppliedInv, CommandInv, LogOk, HistoryInv, AllHeldAtVotes, AllCommitted;
    var h, s, r := c.hist, c.servers[x], c.servers[y];
    RecordSound(c);
    LogStarts(c, x);
    LogStarts(c, y);
    BothStart(h.leaderLog, h.leaderLog, s.log, r.log);
    if k > 0 {
      var t: nat, i: nat :| Accounts(h, t, i, s.term, s.log, a);
      var u: nat, j: nat :| Accounts(h, u, j, r.term, r.log, b);
      forall q | 0 <= q <= k
        ensures s.log[q] == r.log[q]
      {
        CommitsAgree(|c.servers|, h, t, i, u, j, q);
      }
    }
  }

  /** In every run of the whole system that meets the delivery hypothesis: each replica's map and
      duplicate table are the replay of its own server's log up to where it has got, with nothing left
      to consume up to `lastApplied`; each Put and Append in it took effect once if clients come in
      order; and of two replicas, the one that has got further went through the other's state. */
  lemma ServiceReplays(n: nat, run: seq<System>, moves: seq<Move>, decode: Decoder, k: nat, x: int, y: int)
    requires IsSystemRun(n, run, moves, decode) && k < |run| && 0 <= x < |run[k].hosts| && 0 <= y < |run[k].hosts|
    ensures |run[k].cluster.servers| == |run[k].hosts|
    ensures var s, host := run[k].cluster.servers[x], run[k].hosts[x];
            && host.node.point <= s.lastApplied < |s.log|
            && host.node.replica.store == Built(s.log, host.node.point, decode)
            && (host.queue == [] ==> host.node.replica.store == Built(s.log, s.lastApplied, decode))
            && (var ops := Operations(s.log, host.node.point, decode);
                K.ClientsInOrder(ops) ==> host.node.replica.store.kv == K.Plain(K.FirstOps(ops)))
    ensures var s, r, node, other := run[k].cluster.servers[x], run[k].cluster.servers[y], run[k].hosts[x].node, run[k].hosts[y].node;
            node.point <= other.point ==>
              && node.point < |r.log| && node.replica.store == Built(r.log, node.point, decode)
              && (node.point == other.point ==> node.replica.store == other.replica.store)
  {
    hide RaftInv, Leads, Firm, IsSystemRun, ImageInv;
    SystemRunInv(n, run, moves, decode, k);
    var c := run[k].cluster;
    assert HostInv(c, x, run[k].hosts[x], decode) && HostInv(c, y, run[k].hosts[y], decode);
    HostParts(c, x, run[k].hosts[x], decode);
    HostParts(c, y, run[k].hosts[y], decode);
    LeadsEmpty(c, x, c.servers[x].log, run[k].hosts[x].queue, run[k].hosts[x].node.point, c.servers[x].lastApplied, decode);
    var p, q := run[k].hosts[x].node.point, run[k].hosts[y].node.point;
    K.ExactlyOnce(Operations(c.servers[x].log, p, decode));
    if p <= q {
      FirmLogsAgree(c, x, y, c.servers[x].lastApplied, c.servers[y].lastApplied, p);
      BuiltSame(c.servers[x].log, c.servers[y].log, p, p, decode);
    }
  }

  lemma LeadsEmpty(c: Cluster, x: int, log: seq<LogEntry>, queue: seq<K.ApplyMsg>, point: nat, end: nat, decode: Decoder)
    requires Leads(c, x, log, queue, point, end, decode)
    ensures queue == [] ==> point == end
  {
  }

  /** In every such run a service with a message waiting can consume it, and no snapshot it takes makes
      its server panic. */
  lemma ServiceNeverPanics(n: nat, run: seq<System>, moves: seq<Move>, decode: Decoder, k: nat, i: int, large: bool)
    requires IsSystemRun(n, run, moves, decode) && k < |run| && 0 <= i < |run[k].hosts| && run[k].hosts[i].queue != []
    ensures CanMove(run[k], Consume(i, large))
    ensures run[k].hosts[i].queue[0].CommandMsg? ==>
              !SnapshotPanics(run[k].cluster.servers[i], run[k].hosts[i].queue[0].index)
  {
    hide SystemInv, IsSystemRun;
    SystemRunInv(n, run, moves, decode, k);
    CanConsume(run[k], i, large, decode);
  }

  // ----- across moments

  lemma FirmAfterMove(v: System, move: Move, decode: Decoder, x: int, k: nat)
    requires SystemInv(v, decode) && CanMove(v, move) && 0 <= x < |v.hosts| && FirmTo(v.cluster.hist, v.cluster.servers[x], k)
    ensures var c, c' := v.cluster, After(v, move, decode).cluster;
            && |c'.servers| == |c.servers| && SameUpTo(c.servers[x].log, c'.servers[x].log, k)
            && FirmTo(c'.hist, c'.servers[x], k)
  {
    hide RaftInv, HostInv, Firm, ImageInv, SameUpTo, NextServer, NextHistory, NewMessages, InOrder, HostAfter, ImagesAfter, HostConsumed;
    var c := v.cluster;
    if move.Protocol? {
      LogStays(c, move.step, x, k);
    } else if Snapshots(v.hosts[move.i], move.large) {
      var step := ServiceSnapshot(move.i, v.hosts[move.i].queue[0].index);
      SnapshotInOrder(c, step);
      LogStays(c, step, x, k);
    } else {
      FirmInLog(c, x, k);
      SameItself(c.servers[x].log, k);
    }
  }

  lemma SnapshotInOrder(c: Cluster, step: Step)
    requires Enabled(c, step) && step.ServiceSnapshot?
    ensures InOrder(c, step)
  {
  }

  lemma FirmInLog(c: Cluster, x: int, k: nat)
    requires RaftInv(c) && 0 <= x < |c.servers| && FirmTo(c.hist, c.servers[x], k)
    ensures k < |c.servers[x].log|
  {
    hide HoldInv, CommitInv, AppliedInv, CommandInv;
    LogStarts(c, x);
  }

  /** What is firm at one moment is there, unchanged, at every later one. */
  lemma {:induction false} FirmLater(n: nat, run: seq<System>, moves: seq<Move>, decode: Decoder, a: nat, b: nat, x: int, k: nat)
    requires IsSystemRun(n, run, moves, decode) && a <= b < |run| && SystemInv(run[a], decode)
    requires 0 <= x < |run[a].hosts| && FirmTo(run[a].cluster.hist, run[a].cluster.servers[x], k)
    ensures SystemInv(run[b], decode) && |run[b].cluster.servers| == |run[a].cluster.servers|
    ensures SameUpTo(run[a].cluster.servers[x].log, run[b].cluster.servers[x].log, k)
    ensures FirmTo(run[b].cluster.hist, run[b].cluster.servers[x], k)
    decreases b - a
  {
    hide RaftInv, HostInv, Firm, ImageInv, CanMove, After, NewSystem;
    if a == b {
      FirmInLog(run[a].cluster, x, k);
    } else {
      FirmLater(n, run, moves, decode, a, b - 1, x, k);
      FirmAfterMove(run[b - 1], moves[b - 1], decode, x, k);
      SystemRunInv(n, run, moves, decode, b);
    }
  }

  /** At any two moments of such a run: what one replica has built, the other, if it has got at least as
      far, has built on the way. */
  lemma ReplicasAgree(n: nat, run: seq<System>, moves: seq<Move>, decode: Decoder, a: nat, b: nat, x: int, y: int)
    requires IsSystemRun(n, run, moves, decode) && a < |run| && b < |run|
    requires 0 <= x < |run[a].hosts| && 0 <= y < |run[b].hosts|
    requires run[a].hosts[x].node.point <= run[b].hosts[y].node.point
    ensures |run[b].cluster.servers| == |run[b].hosts|
    ensures var node, log := run[a].hosts[x].node, run[b].cluster.servers[y].log;
            node.point < |log| && node.replica.store == Built(log, node.point, decode)
    ensures run[a].hosts[x].node.point == run[b].hosts[y].node.point ==>
              run[a].hosts[x].node.replica.store == run[b].hosts[y].node.replica.store
  {
    hide RaftInv, Leads, Firm, IsSystemRun, ImageInv, SameUpTo;
    SystemRunInv(n, run, moves, decode, a);
    SystemRunInv(n, run, moves, decode, b);
    var c, d, p := run[a].cluster, run[b].cluster, run[a].hosts[x].node.point;
    assert HostInv(c, x, run[a].hosts[x], decode) && HostInv(d, y, run[b].hosts[y], decode);
    HostParts(c, x, run[a].hosts[x], decode);
    HostParts(d, y, run[b].hosts[y], decode);
    var e, f := c.servers[x].lastApplied, d.servers[y].lastApplied;
    if a <= b {
      FirmLater(n, run, moves, decode, a, b, x, e);
      FirmLogsAgree(d, x, y, e, f, p);
      Joined(c.servers[x].log, d.servers[x].log, d.servers[y].log, e, p, p);
    } else {
      FirmLater(n, run, moves, decode, b, a, y, f);
      FirmLogsAgree(c, x, y, e, f, p);
      SameBack(d.servers[y].log, c.servers[y].log, f);
      Joined(c.servers[x].log, c.servers[y].log, d.servers[y].log, p, f, p);
    }
    BuiltSame(c.servers[x].log, d.servers[y].log, p, p, decode);
  }

  lemma Joined(a: seq<LogEntry>, b: seq<LogEntry>, c: seq<LogEntry>, i: nat, j: nat, k: nat)
    requires SameUpTo(a, b, i) && SameUpTo(b, c, j) && k <= i && k <= j
    ensures SameUpTo(a, c, k)
  {
  }

  lemma SameBack(a: seq<LogEntry>, b: seq<LogEntry>, k: nat)
    requires SameUpTo(a, b, k)
    ensures SameUpTo(b, a, k)
  {
  }
}
