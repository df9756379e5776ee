/** Why the delivery hypothesis asks that a snapshot which replaces a log reach as far as the log did:
    `installSnapshot` drops the whole tail (src/raft/raft_log.go:138-150), so a late snapshot can remove
    an entry that came after it, was acknowledged, and was committed. */
module RaftInstallCounterexample {
  import opened Quorums
  import opened RaftServer
  import opened RaftCluster
  import opened RaftCounterexample
  import RaftSafety

  function Later(): LogEntry { LogEntry(1, true, "y") }
  function Other(): LogEntry { LogEntry(2, true, "z") }
  function Base(): seq<LogEntry> { [Dummy(), X()] }
  function Install(): InstallSnapshotArgs { InstallSnapshotArgs(1, 0, 1, 1, Base()) }
  function Second(term: nat, who: int, e: LogEntry, commit: nat): AppendEntriesArgs {
    AppendEntriesArgs(term, who, 1, 1, [e], commit)
  }

  /** The leader of term 1 after its snapshot at index 1. */
  function First(log: seq<LogEntry>, commit: nat, applied: nat, next: seq<int>, matched: seq<int>): Server {
    Server(Leader, 1, 0, log, 1, commit, applied, next, matched, {0, 1}, false, Disk(1, 0, log, 1))
  }

  /** Server 2 before and after the late snapshot. */
  function Lagging(log: seq<LogEntry>, commit: nat): Server {
    At(Follower, 1, -1, log, commit, 0, [0, 0, 0], [0, 0, 0], {})
  }

  function Cut(term: nat, votedFor: int, log: seq<LogEntry>): Server {
    Server(Follower, term, votedFor, log, 1, 1, 0, [0, 0, 0], [0, 0, 0], {}, true, Disk(term, votedFor, log, 1))
  }

  /** The leader of term 2. */
  function Next1(log: seq<LogEntry>, commit: nat, applied: nat, next: seq<int>, matched: seq<int>): Server {
    At(Leader, 2, 1, log, commit, applied, next, matched, {1, 2})
  }

  /** One step whose acting server and some of whose messages and deliveries are known. */
  lemma TakeTo(half: Half, c: Cluster, servers: seq<Server>, sent: set<Message>, applied: set<(int, nat, LogEntry)>,
               step: Step, servers': seq<Server>, sent': set<Message>, applied': set<(int, nat, LogEntry)>) returns (d: Cluster)
    requires Shows(half, c, servers, sent, applied) && Enabled(c, step) && Fits(half, c, step)
    requires servers' == servers[step.i := NextServer(c, step)] && sent' <= sent + NewMessages(c, step)
    requires applied' <= applied + if step.ApplyCommitted? then Deliveries(c.servers[step.i], step.i) else {}
    ensures Shows(half, d, servers', sent', applied')
  {
    hide Reachable, NextServer, NewMessages, NextHistory;
    d := Take(half, c, step);
    if step.ApplyCommitted? {
      HandedNow(c, step);
    }
  }

  lemma HandedNow(c: Cluster, step: Step)
    requires Enabled(c, step) && step.ApplyCommitted?
    ensures Deliveries(c.servers[step.i], step.i) <= Next(c, step).hist.applied
  {
  }

  /** Server 0 has committed "x" with server 1; the request that carries it to server 2 is on its way. */
  lemma Opened() returns (d: Cluster)
    ensures Shows(Orderly(1), d, [Settled(1, 0, X()), Follower1(1, 0, Base()), Follower1(0, -1, [Dummy()])],
                  {AppendRequest(2, Carry(1, 0, X()))}, {(0, 1, X())})
  {
    hide NextHistory, Reachable;
    var idle := Follower1(0, -1, [Dummy()]);
    var c := Opening(Orderly(1));
    var c1 := Take(Orderly(1), c, Timeout(0));
    var candidate := At(Candidate, 1, 0, [Dummy()], 0, 0, [0, 0, 0], [0, 0, 0], {});
    assert c1.servers == [candidate, idle, idle];
    var c2 := Elect(Orderly(1), c1, [candidate, idle, idle], {}, {}, 0, 1, 0, -1);
    d := Replicated(c2);
  }

  lemma Replicated(c: Cluster) returns (d: Cluster)
    requires Shows(Orderly(1), c, [Elected(1, 0), Follower1(1, 0, [Dummy()]), Follower1(0, -1, [Dummy()])], {}, {})
    ensures Shows(Orderly(1), d, [Settled(1, 0, X()), Follower1(1, 0, Base()), Follower1(0, -1, [Dummy()])],
                  {AppendRequest(2, Carry(1, 0, X()))}, {(0, 1, X())})
  {
    hide NextHistory, Reachable;
    var c1 := Take(Orderly(1), c, ClientStart(0, "x"));
    var log := Base();
    assert [Dummy()] + [X()] == log && log[1..] == [X()];
    var c2 := Take(Orderly(1), c1, Replicate(0));
    assert c2.servers[0] == At(Leader, 1, 0, log, 0, 0, [2, 1, 1], [1, 0, 0], {0, 1});
    var s := c1.servers[0];
    assert CanReplicate(s, 1) && CanReplicate(s, 2);
    assert ReplicateArgs(s, 0, 1) == Carry(1, 0, X()) && ReplicateArgs(s, 0, 2) == Carry(1, 0, X());
    assert AppendRequest(1, Carry(1, 0, X())) in c2.net && AppendRequest(2, Carry(1, 0, X())) in c2.net;
    d := Acknowledged(Orderly(1), c2, c2.servers, {AppendRequest(2, Carry(1, 0, X()))}, {}, 0, 1, X());
  }

  lemma Known(half: Half, c: Cluster, servers: seq<Server>, sent: set<Message>, applied: set<(int, nat, LogEntry)>)
    requires Shows(half, c, servers, sent, applied)
    ensures c.servers == servers && sent <= c.net && applied <= c.hist.applied
  {
  }

  function S1(): Server { Follower1(1, 0, Base()) }

  /** Server 0 takes a snapshot, and sends it to server 2, which it believes to be behind. */
  lemma Snapshotted(c: Cluster) returns (d: Cluster)
    requires Shows(Orderly(1), c, [Settled(1, 0, X()), S1(), Follower1(0, -1, [Dummy()])], {AppendRequest(2, Carry(1, 0, X()))}, {(0, 1, X())})
    ensures Shows(Orderly(1), d, [First(Base(), 1, 1, [2, 2, 1], [1, 1, 0]), S1(), Follower1(0, -1, [Dummy()])],
                  {AppendRequest(2, Carry(1, 0, X())), InstallRequest(2, Install())}, {})
  {
    hide NextHistory, Reachable, Shows, S1;
    var s0, s2 := Settled(1, 0, X()), Follower1(0, -1, [Dummy()]);
    var sent := {AppendRequest(2, Carry(1, 0, X()))};
    Known(Orderly(1), c, [s0, S1(), s2], sent, {(0, 1, X())});
    assert Handed(c.hist, 0, 1);
    var s := First(Base(), 1, 1, [2, 2, 1], [1, 1, 0]);
    assert NextServer(c, ServiceSnapshot(0, 1)) == s;
    var c1 := TakeTo(Orderly(1), c, [s0, S1(), s2], sent, {(0, 1, X())}, ServiceSnapshot(0, 1), [s, S1(), s2], sent, {});
    Known(Orderly(1), c1, [s, S1(), s2], sent, {});
    assert s.log[..2] == Base();
    assert Behind(s, 2) && InstallArgs(s, 0) == Install();
    assert InstallRequest(2, Install()) in Installs(s, 0, 3);
    assert [1, 1, 0][0 := 1] == [1, 1, 0] && [2, 2, 1][0 := 2] == [2, 2, 1];
    d := TakeTo(Orderly(1), c1, [s, S1(), s2], sent, {}, Replicate(0), [s, S1(), s2], sent + {InstallRequest(2, Install())}, {});
    assert sent + {InstallRequest(2, Install())} == {AppendRequest(2, Carry(1, 0, X())), InstallRequest(2, Install())};
  }

  /** Then the request arrives at server 2 after all. */
  lemma CaughtUp(c: Cluster) returns (d: Cluster)
    requires Shows(Orderly(1), c, [First(Base(), 1, 1, [2, 2, 1], [1, 1, 0]), S1(), Follower1(0, -1, [Dummy()])],
                   {AppendRequest(2, Carry(1, 0, X())), InstallRequest(2, Install())}, {})
    ensures Shows(Orderly(1), d, [First(Base(), 1, 1, [2, 2, 2], [1, 1, 1]), S1(), Lagging(Base(), 0)], {InstallRequest(2, Install())}, {})
  {
    hide NextHistory, Reachable, Shows, S1, MajorityIndex;
    var s0, s2, s2' := First(Base(), 1, 1, [2, 2, 1], [1, 1, 0]), Follower1(0, -1, [Dummy()]), Lagging(Base(), 0);
    var sent := {AppendRequest(2, Carry(1, 0, X())), InstallRequest(2, Install())};
    var args, reply := Carry(1, 0, X()), AppendEntriesReply(0, true);
    Known(Orderly(1), c, [s0, S1(), s2], sent, {});
    assert [Dummy()][..1] + [X()] == Base();
    assert NextServer(c, ReceiveAppendRequest(2, args)) == s2';
    var c1 := TakeTo(Orderly(1), c, [s0, S1(), s2], sent, {}, ReceiveAppendRequest(2, args), [s0, S1(), s2'],
                     {AppendResponse(2, args, reply), InstallRequest(2, Install())}, {});
    Known(Orderly(1), c1, [s0, S1(), s2'], {AppendResponse(2, args, reply), InstallRequest(2, Install())}, {});
    assert [1, 1, 0][2 := 1] == [1, 1, 1] && [2, 2, 1][2 := 2] == [2, 2, 2];
    assert MajorityIndex([1, 1, 1]) in [1, 1, 1];
    d := TakeTo(Orderly(1), c1, [s0, S1(), s2'], {AppendResponse(2, args, reply), InstallRequest(2, Install())}, {},
                ReceiveAppendResponse(0, 2, args, reply),
                [First(Base(), 1, 1, [2, 2, 2], [1, 1, 1]), S1(), s2'], {InstallRequest(2, Install())}, {});
  }

  /** Server 0 sends server 2 a second entry. */
  lemma SecondSent(c: Cluster) returns (d: Cluster)
    requires Shows(Orderly(2), c, [First(Base(), 1, 1, [2, 2, 2], [1, 1, 1]), S1(), Lagging(Base(), 0)], {InstallRequest(2, Install())}, {})
    ensures Shows(Orderly(2), d, [First(Base() + [Later()], 1, 1, [3, 2, 2], [2, 1, 1]), S1(), Lagging(Base(), 0)],
                  {InstallRequest(2, Install()), AppendRequest(2, Second(1, 0, Later(), 1))}, {})
  {
    hide NextHistory, Reachable, Shows, S1;
    var s0, s2 := First(Base(), 1, 1, [2, 2, 2], [1, 1, 1]), Lagging(Base(), 0);
    var sent, log := {InstallRequest(2, Install())}, Base() + [Later()];
    Known(Orderly(2), c, [s0, S1(), s2], sent, {});
    var s := First(log, 1, 1, [2, 2, 2], [1, 1, 1]);
    assert NextServer(c, ClientStart(0, "y")) == s;
    var c1 := TakeTo(Orderly(2), c, [s0, S1(), s2], sent, {}, ClientStart(0, "y"), [s, S1(), s2], sent, {});
    Known(Orderly(2), c1, [s, S1(), s2], sent, {});
    assert log[2..] == [Later()];
    assert CanReplicate(s, 2) && ReplicateArgs(s, 0, 2) == Second(1, 0, Later(), 1);
    assert AppendRequest(2, Second(1, 0, Later(), 1)) in Appends(s, 0, 3);
    assert [1, 1, 1][0 := 2] == [2, 1, 1] && [2, 2, 2][0 := 3] == [3, 2, 2];
    d := TakeTo(Orderly(2), c1, [s, S1(), s2], sent, {}, Replicate(0), [First(log, 1, 1, [3, 2, 2], [2, 1, 1]), S1(), s2],
                {InstallRequest(2, Install()), AppendRequest(2, Second(1, 0, Later(), 1))}, {});
  }

  lemma TwoOfThree(xs: seq<int>)
    requires xs == [2, 1, 2] || xs == [0, 2, 2]
    ensures MajorityIndex(xs) == 2
  {
    hide MajorityIndex;
    assert Reached(xs, 2) == if xs[0] == 2 then {0, 2} else {1, 2};
    assert Reached(xs, 3) == {};
    MajorityIndexMeaning(xs, 2);
    MajorityIndexMeaning(xs, 3);
  }

  /** Server 2 acknowledges it, and server 0 commits and applies it. */
  lemma SecondCommitted(c: Cluster) returns (d: Cluster)
    requires Shows(Orderly(2), c, [First(Base() + [Later()], 1, 1, [3, 2, 2], [2, 1, 1]), S1(), Lagging(Base(), 0)],
                   {InstallRequest(2, Install()), AppendRequest(2, Second(1, 0, Later(), 1))}, {})
    ensures Shows(Orderly(2), d, [First(Base() + [Later()], 2, 2, [3, 2, 3], [2, 1, 2]), S1(), Lagging(Base() + [Later()], 1)],
                  {InstallRequest(2, Install())}, {(0, 2, Later())})
  {
    hide NextHistory, Reachable, Shows, S1, MajorityIndex;
    var log := Base() + [Later()];
    var s0, s2, s2' := First(log, 1, 1, [3, 2, 2], [2, 1, 1]), Lagging(Base(), 0), Lagging(log, 1);
    var args, reply := Second(1, 0, Later(), 1), AppendEntriesReply(1, true);
    var sent := {InstallRequest(2, Install()), AppendRequest(2, args)};
    Known(Orderly(2), c, [s0, S1(), s2], sent, {});
    assert Base()[..2] + [Later()] == log;
    assert NextServer(c, ReceiveAppendRequest(2, args)) == s2';
    var sent' := {InstallRequest(2, Install()), AppendResponse(2, args, reply)};
    var c1 := TakeTo(Orderly(2), c, [s0, S1(), s2], sent, {}, ReceiveAppendRequest(2, args), [s0, S1(), s2'], sent', {});
    d := SecondApplied(c1);
  }

  lemma SecondApplied(c: Cluster) returns (d: Cluster)
    requires Shows(Orderly(2), c, [First(Base() + [Later()], 1, 1, [3, 2, 2], [2, 1, 1]), S1(), Lagging(Base() + [Later()], 1)],
                   {InstallRequest(2, Install()), AppendResponse(2, Second(1, 0, Later(), 1), AppendEntriesReply(1, true))}, {})
    ensures Shows(Orderly(2), d, [First(Base() + [Later()], 2, 2, [3, 2, 3], [2, 1, 2]), S1(), Lagging(Base() + [Later()], 1)],
                  {InstallRequest(2, Install())}, {(0, 2, Later())})
  {
    hide NextHistory, Reachable, Shows, S1, MajorityIndex, Lagging;
    var log := Base() + [Later()];
    var s0, s2 := First(log, 1, 1, [3, 2, 2], [2, 1, 1]), Lagging(log, 1);
    var args, reply := Second(1, 0, Later(), 1), AppendEntriesReply(1, true);
    var sent, sent' := {InstallRequest(2, Install()), AppendResponse(2, args, reply)}, {InstallRequest(2, Install())};
    Known(Orderly(2), c, [s0, S1(), s2], sent, {});
    TwoOfThree([2, 1, 2]);
    assert [2, 1, 1][2 := 2] == [2, 1, 2] && [3, 2, 2][2 := 3] == [3, 2, 3];
    var s := First(log, 2, 1, [3, 2, 3], [2, 1, 2]);
    assert NextServer(c, ReceiveAppendResponse(0, 2, args, reply)) == s;
    var c1 := TakeTo(Orderly(2), c, [s0, S1(), s2], sent, {}, ReceiveAppendResponse(0, 2, args, reply), [s, S1(), s2], sent', {});
    Known(Orderly(2), c1, [s, S1(), s2], sent', {});
    assert s.log[2] == Later() && (0, 2, Later()) in Deliveries(s, 0);
    d := TakeTo(Orderly(2), c1, [s, S1(), s2], sent', {}, ApplyCommitted(0),
                [First(log, 2, 2, [3, 2, 3], [2, 1, 2]), S1(), s2], sent', {(0, 2, Later())});
  }

  /** The late snapshot removes it from server 2, and server 1 is elected without it. */
  lemma Removed(c: Cluster, s0: Server) returns (d: Cluster)
    requires Shows(Orderly(2), c, [s0, S1(), Lagging(Base() + [Later()], 1)], {InstallRequest(2, Install())}, {(0, 2, Later())})
    ensures Shows(Orderly(2), d, [s0, At(Candidate, 2, 1, Base(), 0, 0, [0, 0, 0], [0, 0, 0], {1}), Cut(1, -1, Base())],
                  {VoteRequest(2, RequestVoteArgs(2, 1, 1, 1))}, {(0, 2, Later())})
  {
    hide NextHistory, Reachable, Shows;
    var s2, s2' := Lagging(Base() + [Later()], 1), Cut(1, -1, Base());
    var done := {(0, 2, Later())};
    Known(Orderly(2), c, [s0, S1(), s2], {InstallRequest(2, Install())}, done);
    assert NextServer(c, ReceiveInstallRequest(2, Install())) == s2';
    var c1 := TakeTo(Orderly(2), c, [s0, S1(), s2], {InstallRequest(2, Install())}, done,
                     ReceiveInstallRequest(2, Install()), [s0, S1(), s2'], {}, done);
    Known(Orderly(2), c1, [s0, S1(), s2'], {}, done);
    var s1 := At(Candidate, 2, 1, Base(), 0, 0, [0, 0, 0], [0, 0, 0], {});
    assert NextServer(c1, Timeout(1)) == s1;
    var c2 := TakeTo(Orderly(2), c1, [s0, S1(), s2'], {}, done, Timeout(1), [s0, s1, s2'], {}, done);
    Known(Orderly(2), c2, [s0, s1, s2'], {}, done);
    Asks2(s1);
    assert CountSelf(s1, 1).votes == {1};
    d := TakeTo(Orderly(2), c2, [s0, s1, s2'], {}, done, BeginElection(1), [s0, s1.(votes := {1}), s2'],
                {VoteRequest(2, RequestVoteArgs(2, 1, 1, 1))}, done);
  }

  lemma Asks2(s: Server)
    requires s.role == Candidate && s.log == Base()
    ensures VoteRequest(2, RequestVoteArgs(s.term, 1, 1, 1)) in Asks(s, 1, 3)
  {
    var p := 2;
    assert RequestVoteArgs(s.term, 1, 1, 1) == RequestVoteArgs(s.term, 1, LastIndex(s.log), LastTerm(s.log));
    assert VoteRequest(p, RequestVoteArgs(s.term, 1, LastIndex(s.log), LastTerm(s.log))) in Asks(s, 1, 3);
  }

  lemma Replaced(c: Cluster, s0: Server) returns (d: Cluster)
    requires Shows(Orderly(2), c, [s0, At(Candidate, 2, 1, Base(), 0, 0, [0, 0, 0], [0, 0, 0], {1}), Cut(1, -1, Base())],
                   {VoteRequest(2, RequestVoteArgs(2, 1, 1, 1))}, {(0, 2, Later())})
    ensures Shows(Orderly(2), d, [s0, Next1(Base(), 0, 0, [2, 2, 2], [0, 0, 0]), Cut(2, 1, Base())], {}, {(0, 2, Later())})
  {
    hide NextHistory, Reachable, Shows;
    var s1, s2, s2' := At(Candidate, 2, 1, Base(), 0, 0, [0, 0, 0], [0, 0, 0], {1}), Cut(1, -1, Base()), Cut(2, 1, Base());
    var ask, vote, done := RequestVoteArgs(2, 1, 1, 1), RequestVoteReply(1, true), {(0, 2, Later())};
    Known(Orderly(2), c, [s0, s1, s2], {VoteRequest(2, ask)}, done);
    assert NextServer(c, ReceiveVoteRequest(2, ask)) == s2';
    var c1 := TakeTo(Orderly(2), c, [s0, s1, s2], {VoteRequest(2, ask)}, done, ReceiveVoteRequest(2, ask), [s0, s1, s2'],
                     {VoteResponse(2, ask, vote)}, done);
    Known(Orderly(2), c1, [s0, s1, s2'], {VoteResponse(2, ask, vote)}, done);
    assert {1} + {2} == {1, 2};
    assert seq(3, _ => 0) == [0, 0, 0] && seq(3, _ => |s1.log|) == [2, 2, 2];
    d := TakeTo(Orderly(2), c1, [s0, s1, s2'], {VoteResponse(2, ask, vote)}, done, ReceiveVoteResponse(1, 2, ask, vote),
                [s0, Next1(Base(), 0, 0, [2, 2, 2], [0, 0, 0]), s2'], {}, done);
  }

  /** Server 1 replicates another entry at the same index. */
  lemma OtherSent(c: Cluster, s0: Server) returns (d: Cluster)
    requires Shows(Orderly(2), c, [s0, Next1(Base(), 0, 0, [2, 2, 2], [0, 0, 0]), Cut(2, 1, Base())], {}, {(0, 2, Later())})
    ensures Shows(Orderly(2), d, [s0, Next1(Base() + [Other()], 0, 0, [2, 3, 2], [0, 2, 0]), Cut(2, 1, Base())],
                  {AppendRequest(2, Second(2, 1, Other(), 0))}, {(0, 2, Later())})
  {
    hide NextHistory, Reachable, Shows;
    var s1, s2, done := Next1(Base(), 0, 0, [2, 2, 2], [0, 0, 0]), Cut(2, 1, Base()), {(0, 2, Later())};
    Known(Orderly(2), c, [s0, s1, s2], {}, done);
    var log := Base() + [Other()];
    var s := Next1(log, 0, 0, [2, 2, 2], [0, 0, 0]);
    assert NextServer(c, ClientStart(1, "z")) == s;
    var c1 := TakeTo(Orderly(2), c, [s0, s1, s2], {}, done, ClientStart(1, "z"), [s0, s, s2], {}, done);
    Known(Orderly(2), c1, [s0, s, s2], {}, done);
    assert log[2..] == [Other()];
    assert CanReplicate(s, 2) && ReplicateArgs(s, 1, 2) == Second(2, 1, Other(), 0);
    assert AppendRequest(2, Second(2, 1, Other(), 0)) in Appends(s, 1, 3);
    assert [0, 0, 0][1 := 2] == [0, 2, 0] && [2, 2, 2][1 := 3] == [2, 3, 2];
    d := TakeTo(Orderly(2), c1, [s0, s, s2], {}, done, Replicate(1), [s0, Next1(log, 0, 0, [2, 3, 2], [0, 2, 0]), s2],
                {AppendRequest(2, Second(2, 1, Other(), 0))}, done);
  }

  lemma OtherAcknowledged(c: Cluster, s0: Server) returns (d: Cluster)
    requires Shows(Orderly(2), c, [s0, Next1(Base() + [Other()], 0, 0, [2, 3, 2], [0, 2, 0]), Cut(2, 1, Base())],
                   {AppendRequest(2, Second(2, 1, Other(), 0))}, {(0, 2, Later())})
    ensures Shows(Orderly(2), d, [s0, Next1(Base() + [Other()], 2, 0, [2, 3, 3], [0, 2, 2]), Cut(2, 1, Base() + [Other()])], {}, {(0, 2, Later())})
  {
    hide NextHistory, Reachable, Shows, MajorityIndex;
    var log, done := Base() + [Other()], {(0, 2, Later())};
    var s1, s2, s2' := Next1(log, 0, 0, [2, 3, 2], [0, 2, 0]), Cut(2, 1, Base()), Cut(2, 1, log);
    var args, reply := Second(2, 1, Other(), 0), AppendEntriesReply(2, true);
    Known(Orderly(2), c, [s0, s1, s2], {AppendRequest(2, args)}, done);
    assert Base()[..2] + [Other()] == log;
    assert NextServer(c, ReceiveAppendRequest(2, args)) == s2';
    var c1 := TakeTo(Orderly(2), c, [s0, s1, s2], {AppendRequest(2, args)}, done, ReceiveAppendRequest(2, args), [s0, s1, s2'],
                     {AppendResponse(2, args, reply)}, done);
    Known(Orderly(2), c1, [s0, s1, s2'], {AppendResponse(2, args, reply)}, done);
    TwoOfThree([0, 2, 2]);
    assert [0, 2, 0][2 := 2] == [0, 2, 2] && [2, 3, 2][2 := 3] == [2, 3, 3];
    d := TakeTo(Orderly(2), c1, [s0, s1, s2'], {AppendResponse(2, args, reply)}, done, ReceiveAppendResponse(1, 2, args, reply),
                [s0, Next1(log, 2, 0, [2, 3, 3], [0, 2, 2]), s2'], {}, done);
  }

  lemma Raise(c: Cluster)
    requires Reachable(Orderly(1), c)
    ensures Reachable(Orderly(2), c)
  {
    hide Enabled, Next, Init, AppendsInOrder;
    var run, steps :| IsRun(3, run, steps) && Conforms(Orderly(1), run, steps) && run[|run| - 1] == c;
    assert Conforms(Orderly(2), run, steps);
  }

  /** Three servers that accept every request in order, and one late snapshot: servers 0 and 1 apply
      different commands at index 2. */
  lemma LateSnapshotBreaksSafety() returns (run: seq<Cluster>, steps: seq<Step>)
    ensures IsRun(3, run, steps) && forall k | 0 <= k < |steps| :: AppendsInOrder(run[k], steps[k])
    ensures (0, 2, Later()) in run[|run| - 1].hist.applied && (1, 2, Other()) in run[|run| - 1].hist.applied
    ensures Later() != Other() && !IsOrderedRun(3, run, steps)
  {
    hide Enabled, Next, Init, AppendsInOrder;
    var c := Opened();
    c := Snapshotted(c);
    c := CaughtUp(c);
    Raise(c);
    c := SecondSent(c);
    c := SecondCommitted(c);
    var s0 := First(Base() + [Later()], 2, 2, [3, 2, 3], [2, 1, 2]);
    c := Removed(c, s0);
    c := Replaced(c, s0);
    c := OtherSent(c, s0);
    c := OtherAcknowledged(c, s0);
    c := OtherApplied(c, s0);
    run, steps :| IsRun(3, run, steps) && Conforms(Orderly(2), run, steps) && run[|run| - 1] == c;
    if IsOrderedRun(3, run, steps) {
      RaftSafety.StateMachineSafety(3, run, steps, |run| - 1, |run| - 1, 0, 1, 2, Later(), Other());
    }
  }

  lemma OtherApplied(c: Cluster, s0: Server) returns (d: Cluster)
    requires Shows(Orderly(2), c, [s0, Next1(Base() + [Other()], 2, 0, [2, 3, 3], [0, 2, 2]), Cut(2, 1, Base() + [Other()])], {}, {(0, 2, Later())})
    ensures Reachable(Orderly(2), d) && {(0, 2, Later()), (1, 2, Other())} <= d.hist.applied
  {
    hide NextHistory, Reachable;
    var s1, s2 := Next1(Base() + [Other()], 2, 0, [2, 3, 3], [0, 2, 2]), Cut(2, 1, Base() + [Other()]);
    assert s1.log[2] == Other() && (1, 2, Other()) in Deliveries(s1, 1);
    d := TakeTo(Orderly(2), c, [s0, s1, s2], {}, {(0, 2, Later())}, ApplyCommitted(1),
                [s0, s1.(lastApplied := 2), s2], {}, {(0, 2, Later()), (1, 2, Other())});
  }
}
