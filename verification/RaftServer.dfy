/** One Raft server on values: its fields and the effect of each handler
    (src/raft/raft.go, raft_election.go, raft_replication.go, raft_compaction.go,
    raft_application.go, raft_persistence.go).  `log` is the full log, dummy entry included;
    `snapIdx` is the boundary below which only the snapshot remains. */
module RaftServer {
  import opened Quorums

  /** The payload of a log entry, opaque to Raft. */
  type Command = string

  datatype LogEntry = LogEntry(term: nat, commandValid: bool, command: Command)

  datatype Role = Follower | Candidate | Leader

  datatype RequestVoteArgs = RequestVoteArgs(term: nat, candidateId: int, lastLogIndex: int, lastLogTerm: nat)
  datatype RequestVoteReply = RequestVoteReply(term: nat, voteGranted: bool)
  datatype AppendEntriesArgs = AppendEntriesArgs(
    term: nat, leaderId: int, prevLogIndex: int, prevLogTerm: nat, entries: seq<LogEntry>, leaderCommit: nat)
  /** `snapshot` stands for what the snapshot covers: the log up to the last included entry. */
  datatype InstallSnapshotArgs = InstallSnapshotArgs(
    term: nat, leaderId: int, lastIncludedIndex: nat, lastIncludedTerm: nat, snapshot: seq<LogEntry>)
  datatype AppendEntriesReply = AppendEntriesReply(term: nat, success: bool)

  /** What `persistLocked` writes. */
  datatype Disk = Disk(term: nat, votedFor: int, log: seq<LogEntry>, snapIdx: nat)

  /** `votes` are the peers counted by the current election. */
  datatype Server = Server(
    role: Role, term: nat, votedFor: int, log: seq<LogEntry>, snapIdx: nat, commitIndex: nat, lastApplied: nat,
    nextIndex: seq<int>, matchIndex: seq<int>, votes: set<int>, snapPending: bool, disk: Disk)

  const NOBODY: int := -1

  function Dummy(): LogEntry {
    LogEntry(0, false, "")
  }

  /** A freshly made server with an empty persister. */
  function NewServer(n: nat): Server {
    Server(Follower, 0, NOBODY, [Dummy()], 0, 0, 0, seq(n, _ => 0), seq(n, _ => 0), {}, false,
           Disk(0, NOBODY, [Dummy()], 0))
  }

  function LastIndex(log: seq<LogEntry>): int {
    |log| - 1
  }

  function LastTerm(log: seq<LogEntry>): nat
    requires log != []
  {
    log[|log| - 1].term
  }

  /** `isMoreUptoDateLocked`: the log is more up to date than one ending in `(index, term)`. */
  predicate MoreUpToDate(log: seq<LogEntry>, index: int, term: nat)
    requires log != []
  {
    if LastTerm(log) != term then LastTerm(log) > term else LastIndex(log) > index
  }

  /** `contextLostLocked`. */
  predicate ContextLost(s: Server, role: Role, term: nat) {
    s.role != role || s.term != term
  }

  /** `persistLocked`. */
  function Persist(s: Server): Server {
    s.(disk := Disk(s.term, s.votedFor, s.log, s.snapIdx))
  }

  /** `becomeFollowerLocked`. */
  function BecomeFollower(s: Server, term: nat): Server {
    if s.term > term then s else
      var t := s.(role := Follower, term := term, votedFor := if term > s.term then NOBODY else s.votedFor);
      if s.term != term then Persist(t) else t
  }

  /** `becomeCandidateLocked`; the election it opens starts with no votes counted. */
  function BecomeCandidate(s: Server, me: int): Server {
    if s.role == Leader then s
    else Persist(s.(role := Candidate, term := s.term + 1, votedFor := me, votes := {}))
  }

  /** `becomeLeaderLocked`. */
  function BecomeLeader(s: Server, n: nat): Server {
    if s.role != Candidate then s
    else s.(role := Leader, nextIndex := seq(n, _ => |s.log|), matchIndex := seq(n, _ => 0))
  }

  /** `Start`. */
  function Start(s: Server, command: Command): (Server, (int, nat, bool)) {
    if s.role != Leader then (s, (0, 0, false)) else
      var t := Persist(s.(log := s.log + [LogEntry(s.term, true, command)]));
      (t, (|t.log| - 1, t.term, true))
  }

  /** `RequestVote`. */
  function RequestVote(s: Server, args: RequestVoteArgs): (Server, RequestVoteReply)
    requires s.log != []
  {
    var no := RequestVoteReply(s.term, false);
    if args.term < s.term then (s, no) else
      var t := if args.term > s.term then BecomeFollower(s, args.term) else s;
      if t.votedFor != NOBODY && t.votedFor != args.candidateId then (t, no)
      else if MoreUpToDate(t.log, args.lastLogIndex, args.lastLogTerm) then (t, no)
      else (Persist(t.(votedFor := args.candidateId)), RequestVoteReply(s.term, true))
  }

  /** The start of `startElection`: the candidate counts itself. */
  function CountSelf(s: Server, me: int): Server {
    if s.role == Candidate then s.(votes := s.votes + {me}) else s
  }

  /** The reply handler of `startElection(term)`. */
  function HandleVoteReply(s: Server, n: nat, electionTerm: nat, peer: int, reply: RequestVoteReply): Server {
    if reply.term > s.term then BecomeFollower(s, reply.term)
    else if ContextLost(s, Candidate, electionTerm) then s
    else if !reply.voteGranted then s
    else
      var t := s.(votes := s.votes + {peer});
      if |t.votes| > n / 2 then BecomeLeader(t, n) else t
  }

  /** `AppendEntries`: on success the log is cut after `prevLogIndex` unconditionally. */
  function AppendEntries(s: Server, args: AppendEntriesArgs): (Server, AppendEntriesReply)
    requires s.snapIdx < |s.log|
  {
    var no := AppendEntriesReply(s.term, false);
    if args.term < s.term then (s, no) else
      var t := BecomeFollower(s, args.term);
      if args.prevLogIndex >= |t.log| then (t, no)
      else if args.prevLogIndex < t.snapIdx then (t, no)
      else if t.log[args.prevLogIndex].term != args.prevLogTerm then (t, no)
      else
        var u := Persist(t.(log := t.log[..args.prevLogIndex + 1] + args.entries));
        (if args.leaderCommit > u.commitIndex then u.(commitIndex := args.leaderCommit) else u,
         AppendEntriesReply(s.term, true))
  }

  /** The end of the back-off loop: the last index at or before `idx` whose term differs, or the
      index before the snapshot boundary. */
  function BackOff(log: seq<LogEntry>, snapIdx: int, idx: int, term: nat): (r: int)
    requires 0 <= snapIdx && snapIdx - 1 <= idx < |log|
    ensures snapIdx - 1 <= r <= idx
    ensures forall k | r < k <= idx :: log[k].term == term
    ensures r >= snapIdx ==> log[r].term != term
    decreases idx
  {
    if idx >= snapIdx && log[idx].term == term then BackOff(log, snapIdx, idx - 1, term) else idx
  }

  /** The leader's bookkeeping is in range of its log. */
  predicate BooksInRange(s: Server, n: nat) {
    && |s.nextIndex| == n && |s.matchIndex| == n
    && s.snapIdx < |s.log|
    && (s.role == Leader ==> forall p | 0 <= p < n ::
          s.nextIndex[p] <= |s.log| && 0 <= s.matchIndex[p] < |s.log| && Readable(s, s.matchIndex[p]))
  }

  /** The leader will look up the entry at `index` only if the log still holds it. */
  predicate Readable(s: Server, index: int) {
    index <= s.commitIndex || s.snapIdx <= index
  }

  /** The reply handler of `startReplication(term)`; `args` were built from this server's log. */
  function HandleAppendReply(
    s: Server, n: nat, term: nat, peer: int, args: AppendEntriesArgs, reply: AppendEntriesReply): Server
    requires BooksInRange(s, n) && 0 <= peer < n
    requires !ContextLost(s, Leader, term) ==> 0 <= args.prevLogIndex + |args.entries| < |s.log|
  {
    if reply.term > s.term then BecomeFollower(s, reply.term)
    else if ContextLost(s, Leader, term) then s
    else if !reply.success then
      var idx := s.nextIndex[peer] - 1;
      if idx < s.snapIdx then s.(nextIndex := s.nextIndex[peer := s.snapIdx + 1])
      else s.(nextIndex := s.nextIndex[peer := BackOff(s.log, s.snapIdx, idx, s.log[idx].term) + 1])
    else
      var matched := args.prevLogIndex + |args.entries|;
      Advance(s.(matchIndex := s.matchIndex[peer := matched], nextIndex := s.nextIndex[peer := matched + 1]))
  }

  /** Committing: the majority index, if it is new and of the current term. */
  function Advance(s: Server): Server
    requires s.matchIndex != [] && forall p | 0 <= p < |s.matchIndex| :: 0 <= s.matchIndex[p] < |s.log|
  {
    var k := MajorityIndex(s.matchIndex);
    if k > s.commitIndex && s.log[k].term == s.term then s.(commitIndex := k) else s
  }

  /** `startReplication`: the leader's own entry. */
  function CountOwnLog(s: Server, me: int): Server
    requires s.role == Leader ==> 0 <= me < |s.matchIndex| && 0 <= me < |s.nextIndex|
  {
    if s.role != Leader then s
    else s.(matchIndex := s.matchIndex[me := |s.log| - 1], nextIndex := s.nextIndex[me := |s.log|])
  }

  /** `startReplication`: the entries for one peer; a peer behind the boundary gets the snapshot. */
  predicate CanReplicate(s: Server, peer: int) {
    0 <= peer < |s.nextIndex| && s.snapIdx <= s.nextIndex[peer] - 1 < |s.log|
  }

  function ReplicateArgs(s: Server, me: int, peer: int): AppendEntriesArgs
    requires CanReplicate(s, peer)
  {
    var prev := s.nextIndex[peer] - 1;
    AppendEntriesArgs(s.term, me, prev, s.log[prev].term, s.log[prev + 1..], s.commitIndex)
  }

  predicate Behind(s: Server, peer: int) {
    0 <= peer < |s.nextIndex| && s.nextIndex[peer] - 1 < s.snapIdx
  }

  function InstallArgs(s: Server, me: int): InstallSnapshotArgs
    requires s.snapIdx < |s.log|
  {
    InstallSnapshotArgs(s.term, me, s.snapIdx, s.log[s.snapIdx].term, s.log[..s.snapIdx + 1])
  }

  /** `InstallSnapshot`: the whole log gives way to the snapshot, unless one at least as long is
      there already; the reply is the term. */
  function AcceptSnapshot(s: Server, args: InstallSnapshotArgs): (Server, nat) {
    if args.term < s.term then (s, s.term) else
      var t := BecomeFollower(s, args.term);
      if t.snapIdx >= args.lastIncludedIndex then (t, s.term)
      else (Persist(t.(log := args.snapshot, snapIdx := args.lastIncludedIndex, snapPending := true)), s.term)
  }

  /** The request replaces the log. */
  predicate Replaces(s: Server, args: InstallSnapshotArgs) {
    args.term >= s.term && s.snapIdx < args.lastIncludedIndex
  }

  /** The reply handler of `installOnPeer(term)`. */
  function HandleInstallReply(s: Server, term: nat, peer: int, args: InstallSnapshotArgs, replyTerm: nat): Server
    requires 0 <= peer < |s.matchIndex| && peer < |s.nextIndex|
  {
    if replyTerm > s.term then BecomeFollower(s, replyTerm)
    else if ContextLost(s, Leader, term) then s
    else if args.lastIncludedIndex > s.matchIndex[peer] then
      s.(matchIndex := s.matchIndex[peer := args.lastIncludedIndex],
         nextIndex := s.nextIndex[peer := args.lastIncludedIndex + 1])
    else s
  }

  /** The end of the snapshot branch of `applicationTicker`. */
  function ApplyInstalled(s: Server): Server {
    s.(lastApplied := s.snapIdx, commitIndex := if s.commitIndex < s.snapIdx then s.snapIdx else s.commitIndex,
       snapPending := false)
  }

  /** The command branch of `applicationTicker`: where it starts and ends. */
  function ApplyFrom(s: Server): nat {
    if s.lastApplied < s.snapIdx then s.snapIdx else s.lastApplied
  }

  function ApplyTo(s: Server): int {
    if s.commitIndex >= |s.log| then |s.log| - 1 else s.commitIndex
  }

  function Apply(s: Server): Server {
    s.(lastApplied := if ApplyTo(s) > ApplyFrom(s) then ApplyTo(s) else ApplyFrom(s))
  }

  /** `Snapshot` looks up the entry at the index, and panics if the log does not hold it. */
  predicate SnapshotPanics(s: Server, index: nat) {
    s.snapIdx < index <= s.commitIndex && |s.log| <= index
  }

  /** `Snapshot`. */
  function TakeSnapshot(s: Server, index: nat): Server {
    if index > s.commitIndex || index <= s.snapIdx then s else Persist(s.(snapIdx := index))
  }

  /** A crash followed by `Make`: everything volatile is reset, the rest read back from disk. */
  function Restart(s: Server, n: nat): Server {
    NewServer(n).(term := s.disk.term, votedFor := s.disk.votedFor, log := s.disk.log, snapIdx := s.disk.snapIdx,
                  commitIndex := s.disk.snapIdx, lastApplied := s.disk.snapIdx, disk := s.disk)
  }
}
