/** Why State Machine Safety needs the delivery hypothesis: `appendFrom` cuts the log even when the
    request is older than what the log already holds (src/raft/raft_log.go:109-111), so a late
    heartbeat can remove an entry that was acknowledged and committed.  For the same reason a snapshot
    at an index the service was handed can panic. */
module RaftCounterexample {
  import opened IntSort
  import opened Quorums
  import opened RaftServer
  import opened RaftCluster
  import RaftSafety

  /** Which half of the delivery hypothesis a run meets: it installs no snapshots, or it accepts
      requests in order and has acknowledged nothing above `top`. */
  datatype Half = NoInstalls | Orderly(top: nat)

  /** The index a step acknowledges. */
  function Acknowledges(c: Cluster, step: Step): nat
    requires Enabled(c, step)
  {
    match step
    case Replicate(i) => if |c.servers[i].log| > 0 then |c.servers[i].log| - 1 else 0
    case ReceiveAppendRequest(i, args) => End(args)
    case ReceiveInstallRequest(i, install) => install.lastIncludedIndex
    case _ => 0
  }

  ghost predicate Fits(half: Half, c: Cluster, step: Step)
    requires Enabled(c, step)
  {
    match half
    case NoInstalls => !Installing(step)
    case Orderly(top) => Acknowledges(c, step) <= top && (step.ReceiveAppendRequest? ==> End(step.args) >= top)
  }

  ghost predicate Conforms(half: Half, run: seq<Cluster>, steps: seq<Step>)
    requires IsRun(3, run, steps)
  {
    forall k | 0 <= k < |steps| :: if half.NoInstalls? then !Installing(steps[k]) else AppendsInOrder(run[k], steps[k])
  }

  ghost predicate Below(half: Half, h: History) {
    half.Orderly? ==> forall w | w in h.acked :: h.acked[w] <= half.top
  }

  /** `c` ends a run of three servers of that kind. */
  ghost predicate Reachable(half: Half, c: Cluster) {
    && Below(half, c.hist)
    && exists run, steps :: IsRun(3, run, steps) && Conforms(half, run, steps) && run[|run| - 1] == c
  }

  ghost predicate Shows(half: Half, c: Cluster, servers: seq<Server>, sent: set<Message>, applied: set<(int, nat, LogEntry)>) {
    Reachable(half, c) && c.servers == servers && sent <= c.net && applied <= c.hist.applied
  }

  /** One more step of the run. */
  lemma Take(half: Half, c: Cluster, step: Step) returns (d: Cluster)
    requires Reachable(half, c) && Enabled(c, step) && Fits(half, c, step)
    ensures Reachable(half, d) && d == Next(c, step) && c.hist.applied <= d.hist.applied
  {
    hide Enabled, Next, Init, Fits, Below, Installing, AppendsInOrder;
    AppliedGrows(c, step);
    StaysBelow(half, c, step);
    var run, steps :| IsRun(3, run, steps) && Conforms(half, run, steps) && run[|run| - 1] == c;
    d := Next(c, step);
    assert IsRun(3, run + [d], steps + [step]);
    assert Conforms(half, run + [d], steps + [step]);
  }

  lemma StaysBelow(half: Half, c: Cluster, step: Step)
    requires Below(half, c.hist) && Enabled(c, step) && Fits(half, c, step)
    ensures Below(half, Next(c, step).hist)
    ensures if half.NoInstalls? then !Installing(step) else AppendsInOrder(c, step)
  {
    hide NextServer, AppendEntries, RequestVote;
  }

  lemma AppliedGrows(c: Cluster, step: Step)
    requires Enabled(c, step)
    ensures c.hist.applied <= Next(c, step).hist.applied
  {
  }

  /** A server that has persisted everything and taken no snapshot. */
  function At(role: Role, term: nat, votedFor: int, log: seq<LogEntry>, commit: nat, applied: nat,
              next: seq<int>, matched: seq<int>, votes: set<int>): Server {
    Server(role, term, votedFor, log, 0, commit, applied, next, matched, votes, false, Disk(term, votedFor, log, 0))
  }

  function X(): LogEntry { LogEntry(1, true, "x") }
  function Y(): LogEntry { LogEntry(2, true, "y") }
  function Follower1(term: nat, votedFor: int, log: seq<LogEntry>): Server {
    At(Follower, term, votedFor, log, 0, 0, [0, 0, 0], [0, 0, 0], {})
  }
  function Ask(term: nat, who: int): RequestVoteArgs { RequestVoteArgs(term, who, 0, 0) }
  function Heartbeat(): AppendEntriesArgs { AppendEntriesArgs(1, 0, 0, 0, [], 0) }
  function Carry(term: nat, who: int, e: LogEntry): AppendEntriesArgs { AppendEntriesArgs(term, who, 0, 0, [e], 0) }

  /** A leader elected by itself and server 1, over empty logs. */
  function Elected(term: nat, me: int): Server {
    At(Leader, term, me, [Dummy()], 0, 0, [1, 1, 1], [0, 0, 0], {me, 1})
  }

  /** The same leader once `e` is in its log and in server 1's. */
  function Settled(term: nat, me: int, e: LogEntry): Server
    requires me == 0 || me == 2
  {
    At(Leader, term, me, [Dummy(), e], 1, 1, [1, 1, 1][me := 2][1 := 2], [0, 0, 0][me := 1][1 := 1], {me, 1})
  }

  lemma Opening(half: Half) returns (c: Cluster)
    ensures Shows(half, c, [Follower1(0, -1, [Dummy()]), Follower1(0, -1, [Dummy()]), Follower1(0, -1, [Dummy()])], {}, {})
  {
    c := Init(3);
    assert IsRun(3, [c], []) && Conforms(half, [c], []);
    assert [c][0] == c;
    assert seq(3, _ => 0) == [0, 0, 0];
    assert c.servers[0] == Follower1(0, -1, [Dummy()]);
  }

  lemma AsksServer1(s: Server, me: int, n: nat)
    requires s.role == Candidate && s.log == [Dummy()] && me != 1 && n > 1
    ensures VoteRequest(1, Ask(s.term, me)) in Asks(s, me, n)
  {
    var p := 1;
    assert Ask(s.term, me) == RequestVoteArgs(s.term, me, LastIndex(s.log), LastTerm(s.log));
    assert VoteRequest(p, RequestVoteArgs(s.term, me, LastIndex(s.log), LastTerm(s.log))) in Asks(s, me, n);
  }

  /** A candidate `me` is elected by itself and server 1. */
  lemma Elect(half: Half, c: Cluster, servers: seq<Server>, sent: set<Message>, applied: set<(int, nat, LogEntry)>,
              me: int, term: nat, before: nat, was: int) returns (d: Cluster)
    requires Shows(half, c, servers, sent, applied) && |servers| == 3 && (me == 0 || me == 2) && before < term
    requires servers[me] == At(Candidate, term, me, [Dummy()], 0, 0, [0, 0, 0], [0, 0, 0], {})
    requires servers[1] == Follower1(before, was, [Dummy()])
    ensures Shows(half, d, servers[1 := Follower1(term, me, [Dummy()])][me := Elected(term, me)], sent, applied)
  {
    hide NextHistory, Reachable;
    var d1 := Take(half, c, BeginElection(me));
    assert d1.servers[me] == servers[me].(votes := {me});
    assert VoteRequest(1, Ask(term, me)) in d1.net by {
      AsksServer1(servers[me], me, 3);
    }
    d := Voted(half, d1, d1.servers, sent, applied, me, term, before, was);
    assert d.servers == servers[1 := Follower1(term, me, [Dummy()])][me := Elected(term, me)];
  }

  lemma Voted(half: Half, c: Cluster, servers: seq<Server>, sent: set<Message>, applied: set<(int, nat, LogEntry)>,
              me: int, term: nat, before: nat, was: int) returns (d: Cluster)
    requires Shows(half, c, servers, sent, applied) && |servers| == 3 && (me == 0 || me == 2) && before < term
    requires servers[me] == At(Candidate, term, me, [Dummy()], 0, 0, [0, 0, 0], [0, 0, 0], {me})
    requires servers[1] == Follower1(before, was, [Dummy()]) && VoteRequest(1, Ask(term, me)) in c.net
    ensures Shows(half, d, servers[1 := Follower1(term, me, [Dummy()])][me := Elected(term, me)], sent, applied)
  {
    hide NextHistory, Reachable;
    var d1 := Take(half, c, ReceiveVoteRequest(1, Ask(term, me)));
    assert d1.servers[1] == Follower1(term, me, [Dummy()]);
    var reply := RequestVoteReply(before, true);
    assert VoteResponse(1, Ask(term, me), reply) in d1.net;
    d := Take(half, d1, ReceiveVoteResponse(me, 1, Ask(term, me), reply));
    assert d.servers[me] == Elected(term, me) by {
      Wins(d1.servers[me], me, term, before);
    }
  }

  lemma Wins(s: Server, me: int, term: nat, before: nat)
    requires s == At(Candidate, term, me, [Dummy()], 0, 0, [0, 0, 0], [0, 0, 0], {me}) && me != 1 && before < term
    ensures HandleVoteReply(s, 3, term, 1, RequestVoteReply(before, true)) == Elected(term, me)
  {
    assert {me} + {1} == {me, 1};
    assert seq(3, _ => 0) == [0, 0, 0] && seq(3, _ => |s.log|) == [1, 1, 1];
  }

  /** The leader's books after it sent `e` and server 1 acknowledged it. */
  lemma MajorityHasIt(me: int)
    requires me == 0 || me == 2
    ensures MajorityIndex([0, 0, 0][me := 1][1 := 1]) == 1
  {
    hide Sort, Insert;
    Three(if me == 0 then 1 else 0, 1, if me == 0 then 0 else 1);
    var xs := [0, 0, 0][me := 1][1 := 1];
    assert xs == [xs[0], xs[1], xs[2]];
    MajorityIndexMeaning(xs, 1);
    MajorityIndexMeaning(xs, 2);
  }

  lemma Three(a: int, b: int, c: int)
    ensures b == 1 && a + c == 1 && 0 <= a && 0 <= c ==>
              |Reached([a, b, c], 1)| == 2 && |Reached([a, b, c], 2)| == 0
  {
    if b == 1 && a + c == 1 && 0 <= a && 0 <= c {
      assert Reached([a, b, c], 1) == if a == 1 then {0, 1} else {1, 2};
      assert Reached([a, b, c], 2) == {};
    }
  }

  /** A leader replicates a client's entry to server 1, commits it and applies it. */
  lemma Settle(half: Half, c: Cluster, servers: seq<Server>, sent: set<Message>, applied: set<(int, nat, LogEntry)>,
               me: int, term: nat, command: Command) returns (d: Cluster)
    requires half.Orderly? ==> half.top == 1
    requires Shows(half, c, servers, sent, applied) && |servers| == 3 && (me == 0 || me == 2) && term > 0
    requires servers[me] == Elected(term, me) && servers[1] == Follower1(term, me, [Dummy()])
    ensures var e := LogEntry(term, true, command);
            Shows(half, d, servers[me := Settled(term, me, e)][1 := Follower1(term, me, [Dummy(), e])],
                  sent, applied + {(me, 1, e)})
  {
    hide NextHistory, Reachable;
    var e := LogEntry(term, true, command);
    var d1 := Take(half, c, ClientStart(me, command));
    var log := [Dummy(), e];
    assert [Dummy()] + [e] == log;
    var d2 := Take(half, d1, Replicate(me));
    var s := d2.servers[me];
    assert s == At(Leader, term, me, log, 0, 0, [1, 1, 1][me := 2], [0, 0, 0][me := 1], {me, 1});
    assert log[1..] == [e];
    assert AppendRequest(1, Carry(term, me, e)) in d2.net by {
      assert CanReplicate(d1.servers[me], 1);
      assert ReplicateArgs(d1.servers[me], me, 1) == Carry(term, me, e);
    }
    d := Acknowledged(half, d2, d2.servers, sent, applied, me, term, e);
    assert d.servers == servers[me := Settled(term, me, e)][1 := Follower1(term, me, [Dummy(), e])];
  }

  lemma Acknowledged(half: Half, c: Cluster, servers: seq<Server>, sent: set<Message>, applied: set<(int, nat, LogEntry)>,
                     me: int, term: nat, e: LogEntry) returns (d: Cluster)
    requires half.Orderly? ==> half.top == 1
    requires Shows(half, c, servers, sent, applied) && |servers| == 3 && (me == 0 || me == 2) && term > 0
    requires e.term == term && AppendRequest(1, Carry(term, me, e)) in c.net
    requires servers[me] == At(Leader, term, me, [Dummy(), e], 0, 0, [1, 1, 1][me := 2], [0, 0, 0][me := 1], {me, 1})
    requires servers[1] == Follower1(term, me, [Dummy()])
    ensures Shows(half, d, servers[me := Settled(term, me, e)][1 := Follower1(term, me, [Dummy(), e])],
                  sent, applied + {(me, 1, e)})
  {
    hide NextHistory, Reachable;
    var args, reply := Carry(term, me, e), AppendEntriesReply(term, true);
    var d1 := Take(half, c, ReceiveAppendRequest(1, args));
    assert [Dummy()][..1] + [e] == [Dummy(), e];
    assert d1.servers[1] == Follower1(term, me, [Dummy(), e]);
    assert AppendResponse(1, args, reply) in d1.net;
    d := Confirmed(half, d1, d1.servers, sent, applied, me, term, e);
    assert d.servers == servers[me := Settled(term, me, e)][1 := Follower1(term, me, [Dummy(), e])];
  }

  lemma Confirmed(half: Half, c: Cluster, servers: seq<Server>, sent: set<Message>, applied: set<(int, nat, LogEntry)>,
                  me: int, term: nat, e: LogEntry) returns (d: Cluster)
    requires Shows(half, c, servers, sent, applied) && |servers| == 3 && (me == 0 || me == 2) && term > 0
    requires e.term == term && AppendResponse(1, Carry(term, me, e), AppendEntriesReply(term, true)) in c.net
    requires servers[me] == At(Leader, term, me, [Dummy(), e], 0, 0, [1, 1, 1][me := 2], [0, 0, 0][me := 1], {me, 1})
    ensures Shows(half, d, servers[me := Settled(term, me, e)], sent, applied + {(me, 1, e)})
  {
    hide MajorityIndex, NextHistory, Reachable;
    MajorityHasIt(me);
    var d1 := Take(half, c, ReceiveAppendResponse(me, 1, Carry(term, me, e), AppendEntriesReply(term, true)));
    var s := d1.servers[me];
    assert s == Settled(term, me, e).(lastApplied := 0);
    d := Take(half, d1, ApplyCommitted(me));
    assert (me, 1, e) in Deliveries(s, me);
    AppliedNow(d1, me, e);
    assert d.servers[me] == Settled(term, me, e);
  }

  lemma AppliedNow(c: Cluster, me: int, e: LogEntry)
    requires Enabled(c, ApplyCommitted(me)) && (me, 1, e) in Deliveries(c.servers[me], me)
    ensures (me, 1, e) in Next(c, ApplyCommitted(me)).hist.applied
  {
  }

  /** Three servers apply different commands at index 1, and no snapshot is ever installed: server 0
      commits "x" with server 1, an older heartbeat then removes it from server 1, and server 2 is
      elected without it. */
  lemma LateHeartbeatBreaksSafety() returns (run: seq<Cluster>, steps: seq<Step>)
    ensures IsRun(3, run, steps) && forall k | 0 <= k < |steps| :: !Installing(steps[k])
    ensures (0, 1, X()) in run[|run| - 1].hist.applied && (2, 1, Y()) in run[|run| - 1].hist.applied
    ensures X() != Y() && !IsOrderedRun(3, run, steps)
  {
    hide Init, Next, Enabled;
    var half := NoInstalls;
    var c := Late();
    var c4 := Overtaken(c);
    run, steps :| IsRun(3, run, steps) && Conforms(half, run, steps) && run[|run| - 1] == c4;
    if IsOrderedRun(3, run, steps) {
      RaftSafety.StateMachineSafety(3, run, steps, |run| - 1, |run| - 1, 0, 2, 1, X(), Y());
    }
  }

  lemma Overtaken(c: Cluster) returns (d: Cluster)
    requires Shows(NoInstalls, c, [Settled(1, 0, X()), Follower1(1, 0, [Dummy()]), Follower1(0, -1, [Dummy()])], {}, {(0, 1, X())})
    ensures Reachable(NoInstalls, d) && {(0, 1, X()), (2, 1, Y())} <= d.hist.applied
  {
    hide NextHistory, Reachable, Settled;
    var half := NoInstalls;
    var servers := [Settled(1, 0, X()), Follower1(1, 0, [Dummy()]), Follower1(0, -1, [Dummy()])];
    var c1 := Take(half, c, Timeout(2));
    var c2 := Take(half, c1, Timeout(2));
    var candidate := At(Candidate, 2, 2, [Dummy()], 0, 0, [0, 0, 0], [0, 0, 0], {});
    assert c2.servers == servers[2 := candidate];
    var c3 := Elect(half, c2, servers[2 := candidate], {}, {(0, 1, X())}, 2, 2, 1, 0);
    d := Settle(half, c3, c3.servers, {}, {(0, 1, X())}, 2, 2, "y");
  }

  /** Up to the late heartbeat. */
  lemma Late() returns (d: Cluster)
    ensures Shows(NoInstalls, d, [Settled(1, 0, X()), Follower1(1, 0, [Dummy()]), Follower1(0, -1, [Dummy()])], {}, {(0, 1, X())})
  {
    hide NextHistory, Reachable, Settled;
    var half, idle := NoInstalls, Follower1(0, -1, [Dummy()]);
    var c := Committed1();
    d := Take(half, c, ReceiveAppendRequest(1, Heartbeat()));
    assert [Dummy(), X()][..1] + [] == [Dummy()];
    assert d.servers[1] == Follower1(1, 0, [Dummy()]);
    assert d.servers == [Settled(1, 0, X()), Follower1(1, 0, [Dummy()]), idle];
  }

  /** Server 0 has committed "x" with server 1; a heartbeat from before is still on its way. */
  lemma Committed1() returns (d: Cluster)
    ensures Shows(NoInstalls, d, [Settled(1, 0, X()), Follower1(1, 0, [Dummy(), X()]), Follower1(0, -1, [Dummy()])],
                  {AppendRequest(1, Heartbeat())}, {(0, 1, X())})
  {
    hide NextHistory, Reachable, Settled;
    var half, idle := NoInstalls, Follower1(0, -1, [Dummy()]);
    var c := Opening(half);
    var c1 := Take(half, c, Timeout(0));
    var candidate := At(Candidate, 1, 0, [Dummy()], 0, 0, [0, 0, 0], [0, 0, 0], {});
    assert c1.servers == [candidate, idle, idle];
    var c2 := Elect(half, c1, [candidate, idle, idle], {}, {}, 0, 1, 0, -1);
    var c3 := Take(half, c2, Replicate(0));
    assert CountOwnLog(Elected(1, 0), 0) == Elected(1, 0);
    assert c3.servers == [Elected(1, 0), Follower1(1, 0, [Dummy()]), idle];
    assert AppendRequest(1, Heartbeat()) in c3.net by {
      assert CanReplicate(c2.servers[0], 1);
      assert ReplicateArgs(c2.servers[0], 0, 1) == Heartbeat();
    }
    d := Settle(half, c3, c3.servers, {AppendRequest(1, Heartbeat())}, {}, 0, 1, "x");
    assert d.servers == [Settled(1, 0, X()), Follower1(1, 0, [Dummy(), X()]), idle];
  }

  // ----- a snapshot that panics

  /** Server 1 learns that "x" is committed, hands it to its service, and then loses it to the late
      heartbeat: a snapshot at that index looks up an entry the log does not hold. */
  lemma SnapshotCanPanic() returns (run: seq<Cluster>, steps: seq<Step>)
    ensures IsRun(3, run, steps) && forall k | 0 <= k < |steps| :: !Installing(steps[k])
    ensures var c := run[|run| - 1];
            && (1, 1, X()) in c.hist.applied && Enabled(c, ServiceSnapshot(1, 1))
            && SnapshotPanics(c.servers[1], 1)
  {
    var c := Committed1();
    c := Learned(c);
    c := Forgotten(c);
    run, steps :| IsRun(3, run, steps) && Conforms(NoInstalls, run, steps) && run[|run| - 1] == c;
  }

  function Told(): AppendEntriesArgs { AppendEntriesArgs(1, 0, 1, 1, [], 1) }

  lemma Learned(c: Cluster) returns (d: Cluster)
    requires Shows(NoInstalls, c, [Settled(1, 0, X()), Follower1(1, 0, [Dummy(), X()]), Follower1(0, -1, [Dummy()])],
                   {AppendRequest(1, Heartbeat())}, {(0, 1, X())})
    ensures Shows(NoInstalls, d, [Settled(1, 0, X()), Follower1(1, 0, [Dummy(), X()]), Follower1(0, -1, [Dummy()])],
                  {AppendRequest(1, Heartbeat()), AppendRequest(1, Told())}, {})
  {
    hide NextHistory, Reachable;
    d := Take(NoInstalls, c, Replicate(0));
    var s := Settled(1, 0, X());
    assert [1, 1, 0][0 := 1] == [1, 1, 0] && [2, 2, 1][0 := 2] == [2, 2, 1];
    assert CountOwnLog(s, 0) == s;
    assert [Dummy(), X()][2..] == [];
    assert CanReplicate(s, 1) && ReplicateArgs(s, 0, 1) == Told();
    assert AppendRequest(1, Told()) in Appends(s, 0, 3);
  }

  lemma Forgotten(c: Cluster) returns (d: Cluster)
    requires Shows(NoInstalls, c, [Settled(1, 0, X()), Follower1(1, 0, [Dummy(), X()]), Follower1(0, -1, [Dummy()])],
                   {AppendRequest(1, Heartbeat()), AppendRequest(1, Told())}, {})
    ensures Reachable(NoInstalls, d) && (1, 1, X()) in d.hist.applied && |d.servers| == 3
    ensures Enabled(d, ServiceSnapshot(1, 1)) && SnapshotPanics(d.servers[1], 1)
  {
    hide NextHistory, Reachable, Settled;
    var log := [Dummy(), X()];
    var c1 := Take(NoInstalls, c, ReceiveAppendRequest(1, Told()));
    assert log[..2] + [] == log;
    var s := At(Follower, 1, 0, log, 1, 0, [0, 0, 0], [0, 0, 0], {});
    assert c1.servers[1] == s;
    var c2 := Take(NoInstalls, c1, ApplyCommitted(1));
    assert (1, 1, X()) in Deliveries(s, 1);
    AppliedNow(c1, 1, X());
    assert c2.servers[1] == s.(lastApplied := 1);
    d := Take(NoInstalls, c2, ReceiveAppendRequest(1, Heartbeat()));
    assert log[..1] + [] == [Dummy()];
    assert d.servers[1].log == [Dummy()] && d.servers[1].commitIndex == 1;
  }
}
