/** What each handler does to a server, said outright: which fields change, to what, and exactly when
    (src/raft/raft.go, raft_election.go, raft_replication.go, raft_compaction.go, raft_application.go,
    raft_persistence.go). */
module RaftMeaning {
  import opened IntSort
  import opened Quorums
  import opened RaftServer

  /** Everything that survives a crash is written as it now is. */
  ghost predicate OnDisk(s: Server) {
    s.disk == Disk(s.term, s.votedFor, s.log, s.snapIdx)
  }

  ghost predicate SameBooks(s: Server, s': Server) {
    s'.nextIndex == s.nextIndex && s'.matchIndex == s.matchIndex
  }

  ghost predicate SameLog(s: Server, s': Server) {
    s'.log == s.log && s'.snapIdx == s.snapIdx
  }

  /** What the application loop looks at. */
  ghost predicate SameProgress(s: Server, s': Server) {
    s'.commitIndex == s.commitIndex && s'.lastApplied == s.lastApplied && s'.snapPending == s.snapPending
  }

  // ----- terms and roles

  /** Stepping down into a term, unless the server is past it: a vote of an older term lapses, and a
      new term is written. */
  ghost predicate SteppedDown(s: Server, s': Server, term: nat) {
    if term < s.term then s' == s else
      && s'.role == Follower && s'.term == term
      && s'.votedFor == (if term > s.term then NOBODY else s.votedFor)
      && (if term > s.term then OnDisk(s') else s'.disk == s.disk)
      && SameLog(s, s') && SameBooks(s, s') && SameProgress(s, s') && s'.votes == s.votes
  }

  lemma BecomeFollowerMeaning(s: Server, term: nat)
    ensures SteppedDown(s, BecomeFollower(s, term), term)
  {
  }

  /** Standing for election: a new term, a vote for itself, both written, and no votes counted. */
  ghost predicate StoodUp(s: Server, s': Server, me: int) {
    if s.role == Leader then s' == s else
      && s'.role == Candidate && s'.term == s.term + 1 && s'.votedFor == me && s'.votes == {} && OnDisk(s')
      && SameLog(s, s') && SameBooks(s, s') && SameProgress(s, s')
  }

  lemma BecomeCandidateMeaning(s: Server, me: int)
    ensures StoodUp(s, BecomeCandidate(s, me), me)
  {
  }

  /** Taking office: every peer is to get what follows the log's end, and has matched nothing. */
  ghost predicate TookOffice(s: Server, s': Server, n: nat) {
    if s.role != Candidate then s' == s else
      && s'.role == Leader && |s'.nextIndex| == |s'.matchIndex| == n
      && (forall p | 0 <= p < n :: s'.nextIndex[p] == |s.log| && s'.matchIndex[p] == 0)
      && s'.term == s.term && s'.votedFor == s.votedFor && s'.votes == s.votes && s'.disk == s.disk
      && SameLog(s, s') && SameProgress(s, s')
  }

  lemma BecomeLeaderMeaning(s: Server, n: nat)
    ensures TookOffice(s, BecomeLeader(s, n), n)
  {
  }

  // ----- elections

  /** `(t, i)` comes before `(u, j)` in the order of log ends. */
  ghost predicate EndsBefore(t: nat, i: int, u: nat, j: int) {
    t < u || (t == u && i < j)
  }

  /** A vote is granted exactly when the request's term is not behind, the server has not voted for
      another in that term, and the candidate's log does not end before its own; and it is written. */
  ghost predicate VoteAsked(s: Server, s': Server, args: RequestVoteArgs, reply: RequestVoteReply)
    requires s.log != []
  {
    && reply.term == s.term
    && (reply.voteGranted <==>
          && args.term >= s.term
          && (args.term > s.term || s.votedFor == NOBODY || s.votedFor == args.candidateId)
          && !EndsBefore(args.lastLogTerm, args.lastLogIndex, s.log[|s.log| - 1].term, |s.log| - 1))
    && s'.term == (if args.term > s.term then args.term else s.term)
    && s'.role == (if args.term > s.term then Follower else s.role)
    && s'.votedFor ==
       (if reply.voteGranted then args.candidateId else if args.term > s.term then NOBODY else s.votedFor)
    && (if reply.voteGranted || args.term > s.term then OnDisk(s') else s'.disk == s.disk)
    && SameLog(s, s') && SameBooks(s, s') && SameProgress(s, s') && s'.votes == s.votes
  }

  lemma RequestVoteMeaning(s: Server, args: RequestVoteArgs)
    requires s.log != []
    ensures var (s', reply) := RequestVote(s, args); VoteAsked(s, s', args, reply)
  {
  }

  /** A granted vote of the running election counts; the candidate takes office exactly when more than
      half of the peers have been counted. */
  ghost predicate VoteTold(s: Server, s': Server, n: nat, electionTerm: nat, peer: int, reply: RequestVoteReply) {
    if reply.term > s.term then SteppedDown(s, s', reply.term)
    else if s.role != Candidate || s.term != electionTerm || !reply.voteGranted then s' == s
    else
      var counted := s.(votes := s.votes + {peer});
      if 2 * |s.votes + {peer}| > n then TookOffice(counted, s', n) else s' == counted
  }

  lemma HandleVoteReplyMeaning(s: Server, n: nat, electionTerm: nat, peer: int, reply: RequestVoteReply)
    ensures VoteTold(s, HandleVoteReply(s, n, electionTerm, peer, reply), n, electionTerm, peer, reply)
  {
  }

  // ----- replication

  /** A leader's log grows by the command, at the index it returns, and is written; nobody else's does. */
  ghost predicate Proposed(s: Server, s': Server, command: Command, index: int, term: nat, isLeader: bool) {
    && isLeader == (s.role == Leader)
    && (if !isLeader then s' == s else
          && index == |s.log| && term == s.term
          && |s'.log| == index + 1 && s'.log[index] == LogEntry(s.term, true, command)
          && (forall k | 0 <= k < index :: s'.log[k] == s.log[k])
          && s'.role == Leader && s'.term == s.term && s'.votedFor == s.votedFor && s'.snapIdx == s.snapIdx
          && OnDisk(s') && SameBooks(s, s') && SameProgress(s, s') && s'.votes == s.votes)
  }

  lemma StartMeaning(s: Server, command: Command)
    ensures var (s', (index, term, isLeader)) := Start(s, command); Proposed(s, s', command, index, term, isLeader)
  {
  }

  /** A request is accepted exactly when its term is not behind and the log holds its predecessor,
      above or at the boundary, with the same term.  Then the log is what it was up to there, followed
      by the request's entries, and is written, and the leader's commit index is taken over. */
  ghost predicate Appended(s: Server, s': Server, args: AppendEntriesArgs, reply: AppendEntriesReply) {
    var prev := args.prevLogIndex;
    && reply.term == s.term
    && (reply.success <==>
          args.term >= s.term && s.snapIdx <= prev < |s.log| && s.log[prev].term == args.prevLogTerm)
    && (if !reply.success then SteppedDown(s, s', args.term) else
          && |s'.log| == prev + 1 + |args.entries|
          && (forall k | 0 <= k <= prev :: s'.log[k] == s.log[k])
          && (forall k | 0 <= k < |args.entries| :: s'.log[prev + 1 + k] == args.entries[k])
          && s'.role == Follower && s'.term == args.term && s'.snapIdx == s.snapIdx
          && s'.votedFor == (if args.term > s.term then NOBODY else s.votedFor) && OnDisk(s')
          && s'.commitIndex == (if args.leaderCommit > s.commitIndex then args.leaderCommit else s.commitIndex)
          && s'.lastApplied == s.lastApplied && s'.snapPending == s.snapPending
          && SameBooks(s, s') && s'.votes == s.votes)
  }

  lemma AppendEntriesMeaning(s: Server, args: AppendEntriesArgs)
    requires s.snapIdx < |s.log|
    ensures var (s', reply) := AppendEntries(s, args); Appended(s, s', args, reply)
  {
    hide BecomeFollower, SteppedDown, Persist, OnDisk;
    BecomeFollowerMeaning(s, args.term);
    KeptTerm(s, args.term);
    if AppendEntries(s, args).1.success {
      var prev := args.prevLogIndex;
      var t := BecomeFollower(s, args.term);
      Spliced(s.log, prev, args.entries);
      Written(t.(log := s.log[..prev + 1] + args.entries));
    }
  }

  /** Stepping down touches neither the log nor what depends on it. */
  lemma KeptTerm(s: Server, term: nat)
    ensures var t := BecomeFollower(s, term);
            && SameLog(s, t) && SameBooks(s, t) && SameProgress(s, t) && t.votes == s.votes
            && (term >= s.term ==>
                  t.role == Follower && t.term == term && t.votedFor == (if term > s.term then NOBODY else s.votedFor))
            && (term < s.term ==> SteppedDown(s, s, term))
  {
  }

  lemma Written(s: Server)
    ensures Persist(s) == s.(disk := Persist(s).disk) && OnDisk(Persist(s))
    ensures forall k: nat :: OnDisk(Persist(s).(commitIndex := k))
  {
  }

  lemma Spliced(log: seq<LogEntry>, prev: int, entries: seq<LogEntry>)
    requires 0 <= prev < |log|
    ensures var r := log[..prev + 1] + entries;
            && |r| == prev + 1 + |entries| && (forall k | 0 <= k <= prev :: r[k] == log[k])
            && forall k | 0 <= k < |entries| :: r[prev + 1 + k] == entries[k]
  {
  }

  /** The greatest index that a majority has reached. */
  ghost predicate MostReached(matched: seq<int>, k: int) {
    Majority(|matched|, Reached(matched, k)) && forall j | j > k :: !Majority(|matched|, Reached(matched, j))
  }

  /** After a refusal the leader goes back to the start of the term before the peer's next index, or to
      the entry after the boundary if it is under it already; nothing else changes. */
  ghost predicate BackedOff(s: Server, s': Server, peer: int)
    requires 0 <= peer < |s.nextIndex| && s.snapIdx < |s.log| && s.nextIndex[peer] <= |s.log|
  {
    && |s'.nextIndex| == |s.nextIndex| && s' == s.(nextIndex := s'.nextIndex)
    && (forall p | 0 <= p < |s.nextIndex| && p != peer :: s'.nextIndex[p] == s.nextIndex[p])
    && (var next, next' := s.nextIndex[peer], s'.nextIndex[peer];
        if next - 1 < s.snapIdx then next' == s.snapIdx + 1
        else
          && s.snapIdx <= next' < next
          && (forall k | next' <= k < next :: s.log[k].term == s.log[next - 1].term)
          && (next' - 1 < s.snapIdx || s.log[next' - 1].term != s.log[next - 1].term))
  }

  /** After an acceptance the peer has matched what was sent; the commit index moves exactly when the
      greatest index a majority has reached is new and of the leader's own term, and to that index. */
  ghost predicate Matched(s: Server, s': Server, peer: int, matched: int)
    requires 0 <= peer < |s.nextIndex| && peer < |s.matchIndex|
  {
    && s'.matchIndex == s.matchIndex[peer := matched] && s'.nextIndex == s.nextIndex[peer := matched + 1]
    && s' == s.(matchIndex := s'.matchIndex, nextIndex := s'.nextIndex, commitIndex := s'.commitIndex)
    && exists k :: MostReached(s'.matchIndex, k) && 0 <= k < |s.log|
                   && s'.commitIndex == if k > s.commitIndex && s.log[k].term == s.term then k else s.commitIndex
  }

  ghost predicate ReplyTold(
    s: Server, s': Server, n: nat, term: nat, peer: int, args: AppendEntriesArgs, reply: AppendEntriesReply)
    requires BooksInRange(s, n) && 0 <= peer < n
  {
    if reply.term > s.term then SteppedDown(s, s', reply.term)
    else if s.role != Leader || s.term != term then s' == s
    else if !reply.success then BackedOff(s, s', peer)
    else Matched(s, s', peer, args.prevLogIndex + |args.entries|)
  }

  lemma AdvanceMeaning(s: Server)
    requires s.matchIndex != [] && forall p | 0 <= p < |s.matchIndex| :: 0 <= s.matchIndex[p] < |s.log|
    ensures var s' := Advance(s);
            && s' == s.(commitIndex := s'.commitIndex)
            && exists k :: MostReached(s.matchIndex, k) && 0 <= k < |s.log|
                           && s'.commitIndex == if k > s.commitIndex && s.log[k].term == s.term then k else s.commitIndex
  {
    hide MostReached, MajorityIndex;
    MajorityIsMost(s.matchIndex);
  }

  lemma MajorityIsMost(matched: seq<int>)
    requires matched != []
    ensures MostReached(matched, MajorityIndex(matched))
  {
    hide Majority, MajorityIndex;
    var k := MajorityIndex(matched);
    MajorityIndexMeaning(matched, k);
    forall j | j > k
      ensures !Majority(|matched|, Reached(matched, j))
    {
      MajorityIndexMeaning(matched, j);
    }
  }

  lemma HandleAppendReplyMeaning(
    s: Server, n: nat, term: nat, peer: int, args: AppendEntriesArgs, reply: AppendEntriesReply)
    requires BooksInRange(s, n) && 0 <= peer < n
    requires !ContextLost(s, Leader, term) ==> 0 <= args.prevLogIndex + |args.entries| < |s.log|
    ensures ReplyTold(s, HandleAppendReply(s, n, term, peer, args, reply), n, term, peer, args, reply)
  {
    hide MajorityIndex, MostReached, BackOff, Advance;
    if reply.term <= s.term && !ContextLost(s, Leader, term) {
      if reply.success {
        var matched := args.prevLogIndex + |args.entries|;
        AdvanceMeaning(s.(matchIndex := s.matchIndex[peer := matched], nextIndex := s.nextIndex[peer := matched + 1]));
      }
    }
  }

  /** The leader's own log is matched to its end. */
  ghost predicate CountedOwn(s: Server, s': Server, me: int)
    requires 0 <= me < |s.matchIndex| && me < |s.nextIndex|
  {
    s' == s.(matchIndex := s.matchIndex[me := |s.log| - 1], nextIndex := s.nextIndex[me := |s.log|])
  }

  lemma CountOwnLogMeaning(s: Server, me: int)
    requires 0 <= me < |s.matchIndex| && me < |s.nextIndex| && s.role == Leader
    ensures CountedOwn(s, CountOwnLog(s, me), me)
  {
  }

  /** A request carries the log from the peer's next index on, and the entry before it for comparison. */
  ghost predicate Carries(s: Server, me: int, peer: int, args: AppendEntriesArgs)
    requires 0 <= peer < |s.nextIndex| && 0 <= s.nextIndex[peer] - 1 < |s.log|
  {
    && args.term == s.term && args.leaderId == me && args.leaderCommit == s.commitIndex
    && args.prevLogIndex == s.nextIndex[peer] - 1 && args.prevLogTerm == s.log[s.nextIndex[peer] - 1].term
    && args.entries == s.log[s.nextIndex[peer]..]
  }

  lemma ReplicateArgsMeaning(s: Server, me: int, peer: int)
    requires CanReplicate(s, peer)
    ensures Carries(s, me, peer, ReplicateArgs(s, me, peer))
  {
  }

  // ----- snapshots

  /** A snapshot of committed entries above the boundary moves the boundary, and is written; any other
      is ignored. */
  ghost predicate Snapshotted(s: Server, s': Server, index: nat) {
    if s.snapIdx < index <= s.commitIndex
    then s' == s.(snapIdx := index, disk := s'.disk) && OnDisk(s')
    else s' == s
  }

  lemma TakeSnapshotMeaning(s: Server, index: nat)
    ensures Snapshotted(s, TakeSnapshot(s, index), index)
  {
  }

  /** A snapshot from a leader not behind, above the boundary, replaces the log and awaits delivery. */
  ghost predicate Installed(s: Server, s': Server, args: InstallSnapshotArgs, replyTerm: nat) {
    && replyTerm == s.term
    && if args.term < s.term || args.lastIncludedIndex <= s.snapIdx then SteppedDown(s, s', args.term)
       else
         && s'.log == args.snapshot && s'.snapIdx == args.lastIncludedIndex && s'.snapPending
         && s'.role == Follower && s'.term == args.term && OnDisk(s')
         && s'.votedFor == (if args.term > s.term then NOBODY else s.votedFor)
         && s'.commitIndex == s.commitIndex && s'.lastApplied == s.lastApplied && SameBooks(s, s') && s'.votes == s.votes
  }

  lemma AcceptSnapshotMeaning(s: Server, args: InstallSnapshotArgs)
    ensures var (s', replyTerm) := AcceptSnapshot(s, args); Installed(s, s', args, replyTerm)
  {
  }

  /** The peer has matched the snapshot, unless it had matched as much. */
  ghost predicate InstallTold(s: Server, s': Server, term: nat, peer: int, args: InstallSnapshotArgs, replyTerm: nat)
    requires 0 <= peer < |s.matchIndex| && peer < |s.nextIndex|
  {
    if replyTerm > s.term then SteppedDown(s, s', replyTerm)
    else if s.role != Leader || s.term != term || args.lastIncludedIndex <= s.matchIndex[peer] then s' == s
    else s' == s.(matchIndex := s.matchIndex[peer := args.lastIncludedIndex],
                  nextIndex := s.nextIndex[peer := args.lastIncludedIndex + 1])
  }

  lemma HandleInstallReplyMeaning(s: Server, term: nat, peer: int, args: InstallSnapshotArgs, replyTerm: nat)
    requires 0 <= peer < |s.matchIndex| && peer < |s.nextIndex|
    ensures InstallTold(s, HandleInstallReply(s, term, peer, args, replyTerm), term, peer, args, replyTerm)
  {
  }

  // ----- the service and crashes

  /** The entries handed over: from the one after the last applied, or after the boundary if that is
      further, to the last that is committed and in the log. */
  ghost predicate HandedOver(s: Server, s': Server, start: nat, entries: seq<LogEntry>) {
    && start == (if s.lastApplied < s.snapIdx then s.snapIdx else s.lastApplied) + 1
    && (forall k | 0 <= k < |entries| :: start + k <= s.commitIndex && start + k < |s.log| && entries[k] == s.log[start + k])
    && (start + |entries| > s.commitIndex || start + |entries| >= |s.log|)
    && s' == s.(lastApplied := start - 1 + |entries|)
  }

  /** After a crash only what was written is left: the log up to its boundary counts as applied. */
  ghost predicate Rebooted(disk: Disk, s': Server, n: nat) {
    && s'.role == Follower && s'.term == disk.term && s'.votedFor == disk.votedFor
    && s'.log == disk.log && s'.snapIdx == disk.snapIdx
    && s'.commitIndex == disk.snapIdx && s'.lastApplied == disk.snapIdx && !s'.snapPending
    && |s'.nextIndex| == |s'.matchIndex| == n && s'.votes == {} && s'.disk == disk
    && forall p | 0 <= p < n :: s'.nextIndex[p] == 0 && s'.matchIndex[p] == 0
  }

  lemma RestartMeaning(s: Server, n: nat)
    ensures Rebooted(s.disk, Restart(s, n), n)
  {
  }
}
