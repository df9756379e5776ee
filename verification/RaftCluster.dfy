/** A cluster of Raft servers and a network that may lose, delay, reorder and duplicate messages:
    sent messages stay in `net`, so each may be received any number of times, or never.
    Every handler runs to completion under the server's mutex, so it is one step. */
module RaftCluster {
  import opened RaftServer

  /** A response carries the arguments of its request, as an RPC reply finds its caller. */
  datatype Message =
    | VoteRequest(to: int, ask: RequestVoteArgs)
    | VoteResponse(from: int, ask: RequestVoteArgs, vote: RequestVoteReply)
    | AppendRequest(to: int, args: AppendEntriesArgs)
    | AppendResponse(from: int, args: AppendEntriesArgs, reply: AppendEntriesReply)
    | InstallRequest(to: int, install: InstallSnapshotArgs)
    | InstallResponse(from: int, install: InstallSnapshotArgs, term: nat)

  /** A vote: for whom, with which log the voter had, and whether the term had no leader yet. */
  datatype Ballot = Ballot(candidate: int, voterLog: seq<LogEntry>, early: bool)

  datatype Election = Election(leader: int, quorum: set<int>)

  /** What happened so far; no server reads it.
      - `leaderLog`: the log of each term's leader, as far as it grew in that term;
      - `elections`: who won each term, by whose votes;
      - `ballots`: the vote of each server in each term;
      - `acked`: the furthest index each server accepted in each term;
      - `commits`: the (term, index) pairs a leader committed, with the peers that had reached them;
      - `applied`: the (server, index, entry) triples handed to the service. */
  datatype History = History(
    leaderLog: map<nat, seq<LogEntry>>, elections: map<nat, Election>, ballots: map<(int, nat), Ballot>,
    acked: map<(int, nat), nat>, commits: map<(nat, nat), set<int>>, applied: set<(int, nat, LogEntry)>)

  datatype Cluster = Cluster(servers: seq<Server>, net: set<Message>, hist: History)

  datatype Step =
    | Timeout(i: int)
    | BeginElection(i: int)
    | ReceiveVoteRequest(i: int, ask: RequestVoteArgs)
    | ReceiveVoteResponse(i: int, from: int, ask: RequestVoteArgs, vote: RequestVoteReply)
    | ClientStart(i: int, command: Command)
    | Replicate(i: int)
    | ReceiveAppendRequest(i: int, args: AppendEntriesArgs)
    | ReceiveAppendResponse(i: int, from: int, args: AppendEntriesArgs, reply: AppendEntriesReply)
    | ReceiveInstallRequest(i: int, install: InstallSnapshotArgs)
    | ReceiveInstallResponse(i: int, from: int, install: InstallSnapshotArgs, term: nat)
    | ApplyCommitted(i: int)
    | ApplySnapshot(i: int)
    | ServiceSnapshot(i: int, index: nat)
    | CrashRestart(i: int)

  function Init(n: nat): Cluster {
    Cluster(seq(n, _ => NewServer(n)), {}, History(map[], map[], map[], map[], map[], {}))
  }

  /** Messages must have been sent, to this server; a leader's handler needs its books in range; the
      service takes snapshots at indexes it was handed. */
  predicate Enabled(c: Cluster, step: Step) {
    && 0 <= step.i < |c.servers|
    && (var n, s := |c.servers|, c.servers[step.i];
        && s.snapIdx < |s.log|
        && match step
           case ReceiveVoteRequest(i, ask) => VoteRequest(i, ask) in c.net
           case ReceiveVoteResponse(i, from, ask, vote) => VoteResponse(from, ask, vote) in c.net && ask.candidateId == i
           case ReceiveAppendRequest(i, args) => AppendRequest(i, args) in c.net
           case ReceiveAppendResponse(i, from, args, reply) =>
             AppendResponse(from, args, reply) in c.net && args.leaderId == i && RepliesInRange(s, n, from, args)
           case ReceiveInstallRequest(i, install) => InstallRequest(i, install) in c.net
           case ReceiveInstallResponse(i, from, install, term) =>
             InstallResponse(from, install, term) in c.net && install.leaderId == i && InstallInRange(s, n, from, install)
           case Replicate(i) => |s.matchIndex| == |s.nextIndex| == n
           case ApplyCommitted(i) => !s.snapPending
           case ApplySnapshot(i) => s.snapPending
           case ServiceSnapshot(i, index) => Handed(c.hist, i, index)
           case _ => true)
  }

  /** The service of server `i` was handed an entry with this index. */
  predicate Handed(h: History, i: int, index: nat) {
    exists d | d in h.applied :: d.0 == i && d.1 == index
  }

  predicate RepliesInRange(s: Server, n: nat, from: int, args: AppendEntriesArgs) {
    && BooksInRange(s, n) && 0 <= from < n
    && (!ContextLost(s, Leader, args.term) ==>
          0 <= args.prevLogIndex + |args.entries| < |s.log| && Readable(s, args.prevLogIndex + |args.entries|))
  }

  predicate InstallInRange(s: Server, n: nat, from: int, install: InstallSnapshotArgs) {
    && BooksInRange(s, n) && 0 <= from < n
    && (!ContextLost(s, Leader, install.term) ==>
          install.lastIncludedIndex < |s.log| && Readable(s, install.lastIncludedIndex))
  }

  function Max(a: nat, b: nat): nat {
    if a >= b then a else b
  }

  function Acknowledge(acked: map<(int, nat), nat>, who: int, term: nat, index: nat): map<(int, nat), nat> {
    acked[(who, term) := if (who, term) in acked then Max(acked[(who, term)], index) else index]
  }

  /** The first vote of a server in a term is the one recorded. */
  function CastBallot(h: History, who: int, term: nat, candidate: int, log: seq<LogEntry>): History {
    if (who, term) in h.ballots then h
    else h.(ballots := h.ballots[(who, term) := Ballot(candidate, log, term !in h.leaderLog)])
  }

  /** The requests `startElection` sends. */
  function Asks(s: Server, me: int, n: nat): set<Message>
    requires s.log != []
  {
    if s.role != Candidate then {}
    else set p | 0 <= p < n && p != me ::
           VoteRequest(p, RequestVoteArgs(s.term, me, LastIndex(s.log), LastTerm(s.log)))
  }

  /** The requests `startReplication` sends: entries, and snapshots to the peers behind. */
  function Appends(s: Server, me: int, n: nat): set<Message> {
    if s.role != Leader then {}
    else set p | 0 <= p < n && p != me && CanReplicate(s, p) :: AppendRequest(p, ReplicateArgs(s, me, p))
  }

  function Installs(s: Server, me: int, n: nat): set<Message>
    requires s.snapIdx < |s.log|
  {
    if s.role != Leader then {}
    else set p | 0 <= p < n && p != me && Behind(s, p) :: InstallRequest(p, InstallArgs(s, me))
  }

  function Sends(s: Server, me: int, n: nat): set<Message>
    requires s.snapIdx < |s.log|
  {
    Appends(s, me, n) + Installs(s, me, n)
  }

  /** The entries one round of `applicationTicker` hands over. */
  function Deliveries(s: Server, me: int): set<(int, nat, LogEntry)> {
    set k: nat | ApplyFrom(s) < k <= ApplyTo(s) && k < |s.log| :: (me, k, s.log[k])
  }

  /** The acting server after a step.  A panic ends the process before anything is written; the
      server comes back from what it had persisted. */
  function NextServer(c: Cluster, step: Step): Server
    requires Enabled(c, step)
  {
    var n, s := |c.servers|, c.servers[step.i];
    match step
    case Timeout(i) => BecomeCandidate(s, i)
    case BeginElection(i) => CountSelf(s, i)
    case ReceiveVoteRequest(i, ask) => RequestVote(s, ask).0
    case ReceiveVoteResponse(i, from, ask, vote) => HandleVoteReply(s, n, ask.term, from, vote)
    case ClientStart(i, command) => Start(s, command).0
    case Replicate(i) => CountOwnLog(s, i)
    case ReceiveAppendRequest(i, args) => AppendEntries(s, args).0
    case ReceiveAppendResponse(i, from, args, reply) => HandleAppendReply(s, n, args.term, from, args, reply)
    case ReceiveInstallRequest(i, install) => AcceptSnapshot(s, install).0
    case ReceiveInstallResponse(i, from, install, term) => HandleInstallReply(s, install.term, from, install, term)
    case ApplyCommitted(i) => Apply(s)
    case ApplySnapshot(i) => ApplyInstalled(s)
    case ServiceSnapshot(i, index) => if SnapshotPanics(s, index) then Restart(s, n) else TakeSnapshot(s, index)
    case CrashRestart(i) => Restart(s, n)
  }

  /** The messages a step sends. */
  function NewMessages(c: Cluster, step: Step): set<Message>
    requires Enabled(c, step)
  {
    var n, s := |c.servers|, c.servers[step.i];
    match step
    case BeginElection(i) => Asks(s, i, n)
    case ReceiveVoteRequest(i, ask) => {VoteResponse(i, ask, RequestVote(s, ask).1)}
    case Replicate(i) => Sends(s, i, n)
    case ReceiveAppendRequest(i, args) => {AppendResponse(i, args, AppendEntries(s, args).1)}
    case ReceiveInstallRequest(i, install) => {InstallResponse(i, install, AcceptSnapshot(s, install).1)}
    case _ => {}
  }

  /** The record of a step. */
  function NextHistory(c: Cluster, step: Step): History
    requires Enabled(c, step)
  {
    var h, s, t := c.hist, c.servers[step.i], NextServer(c, step);
    match step
    case Timeout(i) => if s.role == Leader then h else CastBallot(h, i, t.term, i, s.log)
    case ReceiveVoteRequest(i, ask) =>
      if RequestVote(s, ask).1.voteGranted then CastBallot(h, i, ask.term, ask.candidateId, s.log) else h
    case ReceiveVoteResponse(i, from, ask, vote) =>
      if s.role == Candidate && t.role == Leader
      then h.(leaderLog := h.leaderLog[t.term := t.log], elections := h.elections[t.term := Election(i, t.votes)])
      else h
    case ClientStart(i, command) => if s.role == Leader then h.(leaderLog := h.leaderLog[t.term := t.log]) else h
    case Replicate(i) =>
      if s.role == Leader then h.(acked := Acknowledge(h.acked, i, s.term, |s.log| - 1)) else h
    case ReceiveAppendRequest(i, args) =>
      if AppendEntries(s, args).1.success
      then h.(acked := Acknowledge(h.acked, i, args.term, End(args))) else h
    case ReceiveAppendResponse(i, from, args, reply) =>
      if t.commitIndex > s.commitIndex
      then h.(commits := h.commits[(t.term, t.commitIndex) :=
                set p | 0 <= p < |t.matchIndex| && t.matchIndex[p] >= t.commitIndex])
      else h
    case ReceiveInstallRequest(i, install) =>
      if install.term >= s.term
      then h.(acked := Acknowledge(h.acked, i, install.term, install.lastIncludedIndex)) else h
    case ApplyCommitted(i) => h.(applied := h.applied + Deliveries(s, i))
    case _ => h
  }

  /** The index of the last entry a request carries (or of the entry before it, for a heartbeat). */
  function End(args: AppendEntriesArgs): nat {
    if args.prevLogIndex + |args.entries| >= 0 then args.prevLogIndex + |args.entries| else 0
  }

  function Next(c: Cluster, step: Step): Cluster
    requires Enabled(c, step)
  {
    Cluster(c.servers[step.i := NextServer(c, step)], c.net + NewMessages(c, step), NextHistory(c, step))
  }

  /** A run: from the initial cluster, one enabled step after the other. */
  ghost predicate IsRun(n: nat, run: seq<Cluster>, steps: seq<Step>) {
    && |run| == |steps| + 1 && run[0] == Init(n)
    && forall k | 0 <= k < |steps| :: Enabled(run[k], steps[k]) && run[k + 1] == Next(run[k], steps[k])
  }

  /** An InstallSnapshot exchange, or its end. */
  predicate Installing(step: Step) {
    step.ReceiveInstallRequest? || step.ReceiveInstallResponse? || step.ApplySnapshot?
  }

  /** Within a term, a follower never accepts a request that ends before one it already accepted. */
  predicate AppendsInOrder(c: Cluster, step: Step)
    requires Enabled(c, step)
  {
    step.ReceiveAppendRequest? && AppendEntries(c.servers[step.i], step.args).1.success ==>
      Reaches(c.hist.acked, step.i, step.args.term, End(step.args))
  }

  /** A snapshot that replaces a log reaches at least as far as the log does. */
  predicate InstallsInOrder(c: Cluster, step: Step)
    requires Enabled(c, step)
  {
    step.ReceiveInstallRequest? && Replaces(c.servers[step.i], step.install) ==>
      step.install.lastIncludedIndex >= |c.servers[step.i].log| - 1
  }

  /** The delivery hypothesis. */
  predicate InOrder(c: Cluster, step: Step)
    requires Enabled(c, step)
  {
    AppendsInOrder(c, step) && InstallsInOrder(c, step)
  }

  /** The index is not below what the server acknowledged in the term. */
  predicate Reaches(acked: map<(int, nat), nat>, who: int, term: nat, index: nat) {
    (who, term) in acked ==> index >= acked[(who, term)]
  }

  ghost predicate IsOrderedRun(n: nat, run: seq<Cluster>, steps: seq<Step>) {
    IsRun(n, run, steps) && forall k | 0 <= k < |steps| :: InOrder(run[k], steps[k])
  }
}
