/** The Raft object: each handler, run to completion under the mutex, does to the fields what the
    server function of the same name says (src/raft/raft.go, raft_election.go, raft_replication.go,
    raft_persistence.go, raft_compaction.go, raft_application.go). */
module RaftNode {
  import opened IntSort
  import opened Quorums
  import opened RaftServer
  import opened RaftLogs
  import opened RaftCluster
  import opened RaftMeaning

  /** What the persister holds: nothing yet, or what `persistLocked` wrote last. */
  datatype RaftState = NoState | RaftState(term: nat, votedFor: int, log: LogImage)

  /** The persisted state on values; a server that never wrote starts afresh. */
  ghost function DiskOf(saved: RaftState, written: seq<LogEntry>): Disk {
    match saved
    case NoState => Disk(0, NOBODY, [Dummy()], 0)
    case RaftState(term, votedFor, log) => Disk(term, votedFor, written, log.snapLastIdx)
  }

  /** The triples made from the collected entries are the deliveries. */
  lemma Collected(s: Server, me: int, start: nat, entries: seq<LogEntry>)
    requires start == ApplyFrom(s) + 1
    requires |entries| == if ApplyTo(s) > ApplyFrom(s) then ApplyTo(s) - ApplyFrom(s) else 0
    requires forall k | 0 <= k < |entries| :: start + k < |s.log| && entries[k] == s.log[start + k]
    ensures (set k | 0 <= k < |entries| :: (me, start + k, entries[k])) == Deliveries(s, me)
  {
    var made := set k | 0 <= k < |entries| :: (me, start + k, entries[k]);
    forall d | d in Deliveries(s, me)
      ensures d in made
    {
      assert entries[d.1 - start] == s.log[d.1];
    }
  }

  lemma AsksAre(s: Server, me: int, n: nat, args: RequestVoteArgs)
    requires s.role == Candidate && s.log != []
    requires args == RequestVoteArgs(s.term, me, LastIndex(s.log), LastTerm(s.log))
    ensures Asks(s, me, n) == set p | 0 <= p < n && p != me :: VoteRequest(p, args)
  {
    hide LastIndex, LastTerm;
  }

  /** What `startReplication` has sent once it is past the peers below `k`. */
  ghost function AppendsTo(s: Server, me: int, k: nat): set<Message> {
    set p | 0 <= p < k && p != me && CanReplicate(s, p) :: AppendRequest(p, ReplicateArgs(s, me, p))
  }

  ghost function BehindTo(s: Server, me: int, k: nat): set<int> {
    set p | 0 <= p < k && p != me && Behind(s, p)
  }

  lemma NobodyYet(s: Server, me: int)
    ensures AppendsTo(s, me, 0) == {} && BehindTo(s, me, 0) == {}
  {
  }

  lemma NextPeer(s: Server, me: int, k: nat)
    ensures AppendsTo(s, me, k + 1) ==
            AppendsTo(s, me, k) + if k != me && CanReplicate(s, k) then {AppendRequest(k, ReplicateArgs(s, me, k))} else {}
    ensures BehindTo(s, me, k + 1) == BehindTo(s, me, k) + if k != me && Behind(s, k) then {k} else {}
  {
  }

  /** Counting the leader's own log changes no other peer's request. */
  lemma SameRequest(s: Server, t: Server, me: int, peer: int)
    requires 0 <= me < |s.matchIndex| && me < |s.nextIndex| && peer != me && CanReplicate(s, peer)
    requires t == s || t == CountOwnLog(s, me)
    ensures CanReplicate(t, peer) && ReplicateArgs(t, me, peer) == ReplicateArgs(s, me, peer)
  {
  }

  lemma SentMeans(s: Server, me: int, n: nat)
    requires |s.nextIndex| == n && s.snapIdx < |s.log| && forall p | 0 <= p < n :: s.nextIndex[p] <= |s.log|
    ensures forall m :: m in AppendsTo(s, me, n) <==>
              && m.AppendRequest? && 0 <= m.to < n && m.to != me && s.snapIdx <= s.nextIndex[m.to] - 1
              && Carries(s, me, m.to, m.args)
    ensures forall p :: p in BehindTo(s, me, n) <==> 0 <= p < n && p != me && s.nextIndex[p] - 1 < s.snapIdx
  {
    forall m
      ensures m in AppendsTo(s, me, n) <==>
                && m.AppendRequest? && 0 <= m.to < n && m.to != me && s.snapIdx <= s.nextIndex[m.to] - 1
                && Carries(s, me, m.to, m.args)
    {
      if m.AppendRequest? && 0 <= m.to < n && m.to != me && s.snapIdx <= s.nextIndex[m.to] - 1 && Carries(s, me, m.to, m.args) {
        assert CanReplicate(s, m.to) && m == AppendRequest(m.to, ReplicateArgs(s, me, m.to));
      }
    }
  }

  lemma AllPeers(s: Server, me: int, n: nat)
    requires s.role == Leader && s.snapIdx < |s.log|
    ensures AppendsTo(s, me, n) == Appends(s, me, n)
    ensures Sends(s, me, n) == Appends(s, me, n) + set p | p in BehindTo(s, me, n) :: InstallRequest(p, InstallArgs(s, me))
  {
    assert Installs(s, me, n) == set p | p in BehindTo(s, me, n) :: InstallRequest(p, InstallArgs(s, me));
  }

  class Raft {
    const me: nat
    const peers: nat
    var role: Role
    var currentTerm: nat
    var votedFor: int
    const log: RaftLog
    const nextIndex: array<int>
    const matchIndex: array<int>
    var commitIndex: nat
    var lastApplied: nat
    /** The peers counted by the running election. */
    var votes: set<int>
    var snapPending: bool
    var saved: RaftState
    /** The snapshot in the persister. */
    var savedSnapshot: string
    /** The full log at the last write. */
    ghost var written: seq<LogEntry>

    /** What is persisted includes the snapshot of the log. */
    ghost predicate Valid()
      reads this, log
    {
      Sound() && savedSnapshot == log.snapshot
    }

    ghost predicate Sound()
      reads this, log
    {
      && me < peers && nextIndex.Length == peers && matchIndex.Length == peers && nextIndex != matchIndex
      && log.Valid()
      && (saved.RaftState? ==> Refines(saved.log, written))
    }

    ghost function State(): Server
      reads this, log, nextIndex, matchIndex
    {
      Server(role, currentTerm, votedFor, log.full, log.snapLastIdx, commitIndex, lastApplied,
             nextIndex[..], matchIndex[..], votes, snapPending, DiskOf(saved, written))
    }

    // ----- terms, roles and persistence

    /** `persistLocked`: the state and, with it, the snapshot. */
    method PersistLocked()
      requires Sound()
      modifies this`saved, this`savedSnapshot, this`written
      ensures Valid() && State() == Persist(old(State())) && savedSnapshot == log.snapshot && OnDisk(State())
      ensures saved == RaftState(currentTerm, votedFor, log.Image()) && written == log.full
    {
      var image := log.Persist();
      saved := RaftState(currentTerm, votedFor, image);
      savedSnapshot := log.snapshot;
      written := log.full;
    }

    /** `becomeFollowerLocked`. */
    method BecomeFollowerLocked(term: nat)
      requires Valid()
      modifies this
      ensures Valid() && State() == BecomeFollower(old(State()), term)
      ensures SteppedDown(old(State()), State(), term)
    {
      hide SteppedDown;
      BecomeFollowerMeaning(State(), term);
      if currentTerm > term {
        return;
      }
      var shouldPersist := currentTerm != term;
      if term > currentTerm {
        votedFor := NOBODY;
      }
      role := Follower;
      currentTerm := term;
      if shouldPersist {
        PersistLocked();
      }
    }

    /** `becomeCandidateLocked`, and the empty count of the election it starts. */
    method BecomeCandidateLocked()
      requires Valid()
      modifies this
      ensures Valid() && State() == BecomeCandidate(old(State()), me)
      ensures StoodUp(old(State()), State(), me)
    {
      hide StoodUp;
      BecomeCandidateMeaning(State(), me);
      if role == Leader {
        return;
      }
      role := Candidate;
      currentTerm := currentTerm + 1;
      votedFor := me;
      votes := {};
      PersistLocked();
    }

    /** `becomeLeaderLocked`. */
    method BecomeLeaderLocked()
      requires Valid()
      modifies this, nextIndex, matchIndex
      ensures Valid() && State() == BecomeLeader(old(State()), peers)
      ensures TookOffice(old(State()), State(), peers)
    {
      hide TookOffice;
      BecomeLeaderMeaning(State(), peers);
      if role != Candidate {
        return;
      }
      role := Leader;
      ghost var was := State();
      for peer := 0 to peers
        invariant Valid()
        invariant State() == was.(nextIndex := nextIndex[..], matchIndex := matchIndex[..])
        invariant forall p | 0 <= p < peer :: nextIndex[p] == |log.full| && matchIndex[p] == 0
      {
        nextIndex[peer] := log.Size();
        matchIndex[peer] := 0;
      }
      ghost var size := |log.full|;
      assert nextIndex[..] == seq(peers, _ => size) && matchIndex[..] == seq(peers, _ => 0);
      assert seq(peers, _ => |was.log|) == seq(peers, _ => size);
    }

    /** `contextLostLocked`. */
    predicate ContextLostLocked(role: Role, term: nat)
      reads this
    {
      this.role != role || currentTerm != term
    }

    /** `Make`: a new object on what an earlier one left in the persister. */
    constructor (me: nat, peers: nat, saved: RaftState, savedSnapshot: string, ghost written: seq<LogEntry>)
      requires me < peers && (saved.RaftState? ==> Refines(saved.log, written)) && (saved.NoState? ==> savedSnapshot == "")
      ensures Valid() && log.snapshot == savedSnapshot && fresh(log) && fresh(nextIndex) && fresh(matchIndex)
      ensures this.me == me && this.peers == peers
      ensures forall s: Server | s.disk == DiskOf(saved, written) :: State() == Restart(s, peers)
      ensures Rebooted(DiskOf(saved, written), State(), peers)
    {
      this.me, this.peers, this.saved, this.written := me, peers, saved, written;
      this.savedSnapshot := savedSnapshot;
      role, currentTerm, votedFor, votes, snapPending := Follower, 0, NOBODY, {}, false;
      commitIndex, lastApplied := 0, 0;
      log := new RaftLog(0, 0, "", [], [Dummy()]);
      nextIndex := new int[peers](_ => 0);
      matchIndex := new int[peers](_ => 0);
      new;
      assert nextIndex[..] == seq(peers, _ => 0) && matchIndex[..] == seq(peers, _ => 0);
      ReadPersist();
    }

    /** `readPersist`: the state and the snapshot; nothing when nothing was ever written. */
    method ReadPersist()
      requires Sound() && (saved.NoState? ==> savedSnapshot == log.snapshot)
      modifies this, log
      ensures Valid() && saved == old(saved) && savedSnapshot == old(savedSnapshot) && written == old(written)
      ensures log.snapshot == if saved.NoState? then old(log.snapshot) else savedSnapshot
      ensures var s := old(State());
              State() == if saved.NoState? then s else
                var base := saved.log.snapLastIdx;
                s.(term := saved.term, votedFor := saved.votedFor, log := written, snapIdx := base,
                   commitIndex := if base > s.commitIndex then base else s.commitIndex,
                   lastApplied := if base > s.commitIndex then base else s.lastApplied)
    {
      hide Refines;
      match saved {
        case NoState =>
        case RaftState(term, vote, image) =>
          currentTerm := term;
          votedFor := vote;
          log.ReadPersist(image, written);
          log.snapshot := savedSnapshot;
          if log.snapLastIdx > commitIndex {
            commitIndex := log.snapLastIdx;
            lastApplied := log.snapLastIdx;
          }
      }
    }

    // ----- elections

    /** `isMoreUptoDateLocked`. */
    function IsMoreUptoDateLocked(candidateIndex: int, candidateTerm: nat): (r: bool)
      requires Valid()
      reads this, log
      ensures r == MoreUpToDate(log.full, candidateIndex, candidateTerm)
      ensures r == EndsBefore(candidateTerm, candidateIndex, log.full[|log.full| - 1].term, |log.full| - 1)
    {
      var (lastIndex, lastTerm) := log.Last();
      if lastTerm != candidateTerm then lastTerm > candidateTerm else lastIndex > candidateIndex
    }

    /** `RequestVote`. */
    method HandleRequestVote(args: RequestVoteArgs) returns (reply: RequestVoteReply)
      requires Valid()
      modifies this
      ensures Valid() && (State(), reply) == RequestVote(old(State()), args)
      ensures VoteAsked(old(State()), State(), args, reply)
    {
      hide Refines, MoreUpToDate;
      hide VoteAsked, SteppedDown;
      log.BoundaryInLog();
      RequestVoteMeaning(State(), args);
      reply := RequestVoteReply(currentTerm, false);
      if args.term < currentTerm {
        return;
      }
      if args.term > currentTerm {
        BecomeFollowerLocked(args.term);
      }
      if votedFor != NOBODY && votedFor != args.candidateId {
        return;
      }
      if IsMoreUptoDateLocked(args.lastLogIndex, args.lastLogTerm) {
        return;
      }
      reply := reply.(voteGranted := true);
      votedFor := args.candidateId;
      PersistLocked();
    }

    /** `startElection`: counts itself and asks every other peer. */
    method StartElection(term: nat) returns (sent: set<Message>)
      requires Valid()
      modifies this
      ensures Valid()
      ensures var s := old(State());
              if ContextLost(s, Candidate, term) then State() == s && sent == {}
              else State() == CountSelf(s, me) && sent == Asks(s, me, peers)
      ensures var s := old(State());
              if s.role != Candidate || s.term != term then State() == s && sent == {} else
                && State() == s.(votes := s.votes + {me})
                && forall m :: m in sent <==>
                     && m.VoteRequest? && 0 <= m.to < peers && m.to != me
                     && m.ask == RequestVoteArgs(s.term, me, |s.log| - 1, s.log[|s.log| - 1].term)
    {
      sent := {};
      if ContextLostLocked(Candidate, term) {
        return;
      }
      var (lastIdx, lastTerm) := log.Last();
      ghost var was := State();
      var args := RequestVoteArgs(currentTerm, me, lastIdx, lastTerm);
      for peer := 0 to peers
        invariant Valid()
        invariant State() == was.(votes := if me < peer then was.votes + {me} else was.votes)
        invariant sent == set p | 0 <= p < peer && p != me :: VoteRequest(p, args)
      {
        if peer == me {
          votes := votes + {peer};
        } else {
          sent := sent + {VoteRequest(peer, args)};
        }
      }
      AsksAre(was, me, peers, args);
    }

    /** The reply handler of `startElection`. */
    method HandleVote(term: nat, peer: int, reply: RequestVoteReply)
      requires Valid()
      modifies this, nextIndex, matchIndex
      ensures Valid() && State() == HandleVoteReply(old(State()), peers, term, peer, reply)
      ensures VoteTold(old(State()), State(), peers, term, peer, reply)
    {
      hide VoteTold, SteppedDown;
      HandleVoteReplyMeaning(State(), peers, term, peer, reply);
      if reply.term > currentTerm {
        BecomeFollowerLocked(reply.term);
        return;
      }
      if ContextLostLocked(Candidate, term) {
        return;
      }
      if reply.voteGranted {
        votes := votes + {peer};
        if |votes| > peers / 2 {
          BecomeLeaderLocked();
        }
      }
    }

    // ----- replication

    /** `Start`. */
    method StartCommand(command: Command) returns (index: int, term: nat, isLeader: bool)
      requires Valid()
      modifies this, log
      ensures Valid() && (State(), (index, term, isLeader)) == Start(old(State()), command)
      ensures Proposed(old(State()), State(), command, index, term, isLeader)
      ensures log.snapshot == old(log.snapshot)
    {
      hide Proposed;
      StartMeaning(State(), command);
      if role != Leader {
        return 0, 0, false;
      }
      log.Append(LogEntry(currentTerm, true, command));
      PersistLocked();
      return log.Size() - 1, currentTerm, true;
    }

    /** `AppendEntries`. */
    method HandleAppendEntries(args: AppendEntriesArgs) returns (reply: AppendEntriesReply)
      requires Valid()
      modifies this, log
      ensures Valid() && (State(), reply) == AppendEntries(old(State()), args)
      ensures Appended(old(State()), State(), args, reply)
      ensures log.snapshot == old(log.snapshot)
    {
      hide Refines, Perform, Allowed;
      hide Appended, SteppedDown;
      log.BoundaryInLog();
      AppendEntriesMeaning(State(), args);
      reply := AppendEntriesReply(currentTerm, false);
      if args.term < currentTerm {
        return;
      }
      BecomeFollowerLocked(args.term);
      if args.prevLogIndex >= log.Size() {
        return;
      }
      if args.prevLogIndex < log.snapLastIdx {
        return;
      }
      if log.At(args.prevLogIndex).term != args.prevLogTerm {
        return;
      }
      log.AppendFrom(args.prevLogIndex, args.entries);
      PersistLocked();
      reply := reply.(success := true);
      if args.leaderCommit > commitIndex {
        commitIndex := args.leaderCommit;
      }
    }

    /** `getMajorityIndexLocked`: sorts a copy, so the books stay as they are. */
    method GetMajorityIndexLocked() returns (k: int)
      requires Valid()
      ensures k == MajorityIndex(matchIndex[..]) && MostReached(matchIndex[..], k)
    {
      MajorityIsMost(matchIndex[..]);
      var temp := new int[peers](i requires 0 <= i < matchIndex.Length reads matchIndex => matchIndex[i]);
      assert temp[..] == matchIndex[..];
      SortInts(temp);
      SortSorts(matchIndex[..]);
      k := temp[(peers - 1) / 2];
    }

    /** The back-off loop of the reply handler. */
    method BackOffFrom(start: nat) returns (idx: int)
      requires Valid() && log.snapLastIdx <= start < log.Size()
      ensures idx == BackOff(log.full, log.snapLastIdx, start, log.full[start].term)
      ensures log.snapLastIdx - 1 <= idx < start && (idx >= log.snapLastIdx ==> log.full[idx].term != log.full[start].term)
      ensures forall k | idx < k <= start :: log.full[k].term == log.full[start].term
    {
      idx := start;
      var term := log.At(idx).term;
      while idx >= log.snapLastIdx && log.At(idx).term == term
        invariant log.snapLastIdx - 1 <= idx <= start
        invariant BackOff(log.full, log.snapLastIdx, start, term) == BackOff(log.full, log.snapLastIdx, idx, term)
        decreases idx
      {
        idx := idx - 1;
      }
    }

    /** The reply handler of `startReplication`. */
    method HandleAppendReplyLocked(term: nat, peer: int, args: AppendEntriesArgs, reply: AppendEntriesReply)
      requires Valid() && 0 <= peer < peers && BooksInRange(State(), peers)
      requires RepliesInRange(State(), peers, peer, args.(term := term))
      modifies this, nextIndex, matchIndex
      ensures Valid() && State() == HandleAppendReply(old(State()), peers, term, peer, args, reply)
      ensures ReplyTold(old(State()), State(), peers, term, peer, args, reply)
    {
      hide Refines, Sort, Insert, BackOff, MajorityIndex, Perform;
      hide ReplyTold, SteppedDown, MostReached, Majority;
      HandleAppendReplyMeaning(State(), peers, term, peer, args, reply);
      if reply.term > currentTerm {
        BecomeFollowerLocked(reply.term);
        return;
      }
      if ContextLostLocked(Leader, term) {
        return;
      }
      if !reply.success {
        var idx := nextIndex[peer] - 1;
        if idx < log.snapLastIdx {
          nextIndex[peer] := log.snapLastIdx + 1;
          return;
        }
        idx := BackOffFrom(idx);
        nextIndex[peer] := idx + 1;
        return;
      }
      matchIndex[peer] := args.prevLogIndex + |args.entries|;
      nextIndex[peer] := matchIndex[peer] + 1;
      var majorityMatched := GetMajorityIndexLocked();
      if majorityMatched > commitIndex && log.At(majorityMatched).term == currentTerm {
        commitIndex := majorityMatched;
      }
    }

    /** The request to one peer: everything from its next index on. */
    method RequestFor(peer: int) returns (args: AppendEntriesArgs)
      requires Valid() && CanReplicate(State(), peer)
      ensures args == ReplicateArgs(State(), me, peer)
    {
      hide Refines;
      var prevIdx := nextIndex[peer] - 1;
      args := AppendEntriesArgs(currentTerm, me, prevIdx, log.At(prevIdx).term, log.Tail(prevIdx + 1), commitIndex);
    }

    /** `startReplication`: sends each other peer the log from its next index, and counts the
        leader's own; the peers behind the boundary get the snapshot. */
    method StartReplication(term: nat) returns (ok: bool, sent: set<Message>, behind: set<int>)
      requires Valid() && BooksInRange(State(), peers)
      modifies nextIndex, matchIndex
      ensures Valid() && ok == !ContextLost(old(State()), Leader, term)
      ensures var s := old(State());
              if ok then State() == CountOwnLog(s, me) && sent == Appends(s, me, peers)
                         && Sends(s, me, peers) == sent + set p | p in behind :: InstallRequest(p, InstallArgs(s, me))
              else State() == s && sent == {} && behind == {}
      ensures ok == (old(role) == Leader && old(currentTerm) == term)
      ensures var s := old(State());
              ok ==>
                && CountedOwn(s, State(), me)
                && (forall m :: m in sent <==>
                      && m.AppendRequest? && 0 <= m.to < peers && m.to != me && s.snapIdx <= s.nextIndex[m.to] - 1
                      && Carries(s, me, m.to, m.args))
                && (forall p :: p in behind <==> 0 <= p < peers && p != me && s.nextIndex[p] - 1 < s.snapIdx)
    {
      hide Refines, AppendsTo, BehindTo, ReplicateArgs;
      ok, sent, behind := true, {}, {};
      if ContextLostLocked(Leader, term) {
        ok := false;
        return;
      }
      ghost var s := State();
      NobodyYet(s, me);
      for peer := 0 to peers
        invariant Valid()
        invariant State() == if me < peer then CountOwnLog(s, me) else s
        invariant sent == AppendsTo(s, me, peer) && behind == BehindTo(s, me, peer)
      {
        NextPeer(s, me, peer);
        if peer == me {
          matchIndex[peer] := log.Size() - 1;
          nextIndex[peer] := log.Size();
        } else {
          var prevIdx := nextIndex[peer] - 1;
          if prevIdx < log.snapLastIdx {
            behind := behind + {peer};
          } else {
            SameRequest(s, State(), me, peer);
            var args := RequestFor(peer);
            sent := sent + {AppendRequest(peer, args)};
          }
        }
      }
      AllPeers(s, me, peers);
      CountOwnLogMeaning(s, me);
      SentMeans(s, me, peers);
    }

    // ----- snapshots from the leader

    /** `InstallSnapshot`; `image` is the snapshot that stands for `args.snapshot`. */
    method HandleInstallSnapshot(args: InstallSnapshotArgs, image: string) returns (replyTerm: nat)
      requires Valid() && |args.snapshot| == args.lastIncludedIndex + 1 && LastTerm(args.snapshot) == args.lastIncludedTerm
      modifies this, log
      ensures Valid() && (State(), replyTerm) == AcceptSnapshot(old(State()), args)
      ensures Installed(old(State()), State(), args, replyTerm)
      ensures log.snapshot == if Replaces(old(State()), args) then image else old(log.snapshot)
    {
      hide Refines, Perform, Allowed;
      hide Installed, SteppedDown;
      AcceptSnapshotMeaning(State(), args);
      replyTerm := currentTerm;
      if args.term < currentTerm {
        return;
      }
      BecomeFollowerLocked(args.term);
      if log.snapLastIdx >= args.lastIncludedIndex {
        return;
      }
      log.InstallSnapshot(args.lastIncludedIndex, args.lastIncludedTerm, image, args.snapshot);
      PersistLocked();
      snapPending := true;
    }

    /** The reply handler of `installOnPeer`. */
    method HandleInstallReplyLocked(term: nat, peer: int, args: InstallSnapshotArgs, replyTerm: nat)
      requires Valid() && 0 <= peer < peers
      modifies this, nextIndex, matchIndex
      ensures Valid() && State() == HandleInstallReply(old(State()), term, peer, args, replyTerm)
      ensures InstallTold(old(State()), State(), term, peer, args, replyTerm)
    {
      hide InstallTold, SteppedDown;
      HandleInstallReplyMeaning(State(), term, peer, args, replyTerm);
      if replyTerm > currentTerm {
        BecomeFollowerLocked(replyTerm);
        return;
      }
      if ContextLostLocked(Leader, term) {
        return;
      }
      if args.lastIncludedIndex > matchIndex[peer] {
        matchIndex[peer] := args.lastIncludedIndex;
        nextIndex[peer] := matchIndex[peer] + 1;
      }
    }

    /** The end of the snapshot branch of `applicationTicker`. */
    method FinishSnapshot()
      requires Valid()
      modifies this
      ensures Valid() && State() == ApplyInstalled(old(State()))
      ensures lastApplied == log.snapLastIdx && !snapPending
      ensures commitIndex == if old(commitIndex) < log.snapLastIdx then log.snapLastIdx else old(commitIndex)
    {
      lastApplied := log.snapLastIdx;
      if commitIndex < lastApplied {
        commitIndex := lastApplied;
      }
      snapPending := false;
    }

    // ----- the service

    /** `Snapshot`, where it does not panic. */
    method Snapshot(index: nat, snapshot: string)
      requires Valid() && !SnapshotPanics(State(), index)
      modifies this, log
      ensures Valid() && State() == TakeSnapshot(old(State()), index)
      ensures Snapshotted(old(State()), State(), index)
      ensures log.snapshot == if old(log.snapLastIdx) < index <= old(commitIndex) then snapshot else old(log.snapshot)
    {
      hide Snapshotted;
      TakeSnapshotMeaning(State(), index);
      if index > commitIndex {
        return;
      }
      if index <= log.snapLastIdx {
        return;
      }
      log.DoSnapshot(index, snapshot);
      PersistLocked();
    }

    /** One round of the command branch of `applicationTicker`: the entries to hand over, the first
        of which has index `start`. */
    method CollectCommitted() returns (start: nat, entries: seq<LogEntry>)
      requires Valid()
      modifies this
      ensures Valid() && State() == Apply(old(State())) && start == ApplyFrom(old(State())) + 1
      ensures (set k | 0 <= k < |entries| :: (me, start + k, entries[k])) == Deliveries(old(State()), me)
      ensures HandedOver(old(State()), State(), start, entries)
    {
      hide Refines, Deliveries;
      if lastApplied < log.snapLastIdx {
        lastApplied := log.snapLastIdx;
      }
      start := lastApplied + 1;
      var end := commitIndex;
      if end >= log.Size() {
        end := log.Size() - 1;
      }
      entries := [];
      var i := start;
      while i <= end
        invariant start <= i && (i <= end + 1 || i == start) && |entries| == i - start
        invariant i > start ==> i <= end + 1
        invariant forall k | 0 <= k < |entries| :: start + k < |log.full| && entries[k] == log.full[start + k]
      {
        entries := entries + [log.At(i)];
        i := i + 1;
      }
      lastApplied := lastApplied + |entries|;
      Collected(old(State()), me, start, entries);
    }
  }
}
