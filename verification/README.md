# A verified model of a 6.5840 code base

This project models, in Dafny, the four parts of the repository whose correctness rests on more than
one function, and proves what each part promises.

- **The linearizability checker** (`src/porcupine`, `src/models/kv.go`): a backtracking search over a
  doubly linked list that is edited in place, with an undo stack, a 64-bit-word bitset and a
  hash-bucketed memo cache. The answer is exact: true if and only if the history has a linearization,
  whatever order an unstable sort leaves between equal times. A failed verbose check reports, for every
  operation, the longest linearizable order it occurs in. For the key/value model, checking the
  keys one by one is the same as checking the whole history against a map of strings.
- **Raft** (`src/raft`): every handler is an atomic step of a server, in a cluster whose network may
  lose, delay, reorder and duplicate messages and whose servers may crash and restart from what they
  persisted. Election Safety and Log Matching hold of every run, snapshots and InstallSnapshot included,
  and in every run the reply handlers and the replication rounds stay within the log and the books.
  Leader Completeness and State Machine Safety hold of every run that meets a delivery hypothesis
  (`RaftCluster.InOrder`): within a term a follower accepts no AppendEntries that ends before one it
  accepted, and a snapshot that replaces a log reaches at least as far as the log did. In those runs what
  a service was handed stays in its server's log, so `Snapshot` finds its entry. Concrete runs show that
  neither half of the hypothesis can be dropped, and that `Snapshot` panics in a reachable state without it.
  `RaftLog`, with its snapshot boundary, refines a full log, and the methods of the `Raft` object do to its
  fields what the server functions of the protocol say.
- **The shard controller** (`src/shardctrler/state_machine.go`): Join and Leave are functions of the
  last configuration, whatever order Go ranges over maps; every shard is served; Join leaves loads at
  most one apart and Leave keeps them so; no balanced assignment moves fewer shards than Join, even after
  Move; no assignment to the remaining groups moves fewer than Leave; the rebalancing loop always ends.
- **The key/value service** (`src/kvraft`): whatever deliveries, retries, snapshots and restarts a
  replica went through, it holds the replay of the committed prefix it has reached, and each Put or
  Append takes effect once. Service and Raft together, with the channel between them, are one system: in
  every run of it that meets the hypothesis, each replica is the replay of its own server's log up to where
  it has got, and replicas agree at any two moments.

`dafny verify dfyconfig.toml` checks everything.

## How it is organised

| files | what they hold |
|---|---|
| `Bitset`, `DancingLinks`, `LinkedEntries`, `MemoCache` | the data structures of the checker, each against a mathematical value |
| `Linearizability`, `Sorting`, `Entries`, `Search`, `SearchState`, `SearchCoverage`, `PartialLinearizations` | what a history and a linearization are, and the search on values |
| `Checker`, `CheckOperations`, `KvModel` | the checker itself, partitions, locality |
| `FiniteSets`, `IntSort`, `Quorums` | sizes of sets, sorting integers, majorities, the majority index |
| `RaftServer`, `RaftMeaning`, `RaftCluster` | one server on values; what each handler does, said outright; the cluster, its steps, its runs and a record of what happened |
| `RaftInvariant`, `RaftSteps`, `RaftRuns`, `RaftRange` | what every step keeps; Election Safety, Log Matching, ranges |
| `RaftCompleteness`, `RaftSafety`, `RaftApplied`, `RaftDeliveries` | under the delivery hypothesis: Leader Completeness, State Machine Safety, what services were handed |
| `RaftCounterexample`, `RaftInstallCounterexample` | why the hypothesis is needed |
| `RaftLogs`, `RaftNode` | the `RaftLog` and `Raft` objects against the values |
| `ShardTables`, `ShardBalance`, `ShardFewest`, `ShardCtrler`, `ShardRounds` | the controller's table, its two loops, the moves of the first, its configurations, and both loops without the table |
| `KvReplay`, `KvServer`, `KvAgreement` | the replay specification and its theorems; the server object; its agreement with the checked model |
| `ServiceOnRaft`, `ReplicatedService` | the service on top of Raft as one system; its theorems |

Unbounded integers stand for Go's `int`; bitset words are `bv64`. Sorting is given by an insertion
sort, of which only "sorted and a permutation" is used (and, for integers, the sorted sequence itself).
Ranging over a Go map is a loop that picks any remaining key. The time of a call or return, the model's
`Step`, the network, crashes, election timeouts and "Raft's state is too large" are parameters or steps
that may happen at any time.

Assumptions taken over from the source: every operation of a checked history has a call not after its
return; `Equal` is equality and `Step` is deterministic; the kill flag stays down; message entries are
copied when a request is built; each election counts a peer once. A panic ends the process: the server
comes back from what it had persisted.

Where the code departs from the Raft paper (figure 2 of the extended version), the model follows the
code: an accepted AppendEntries cuts the log after `PrevLogIndex` even when nothing conflicts
(src/raft/raft_log.go:109-111); `commitIndex` is set to `LeaderCommit` without a bound
(src/raft/raft_replication.go:77-83); replies carry the term from before the request; a successful reply
may lower `matchIndex` (src/raft/raft_replication.go:151). `checkParallel` waits for a result even when there
is no partition at all, so without a timeout checking an empty key/value history never returns (with one,
the answer is Unknown); `KvModel.CheckKv` and `CheckOperations.CheckAll` therefore ask for at least one
partition.

## Model

| member | source | states |
|---|---|---|
| `Bitset.NewBitset` | src/porcupine/bitset.go:10-17 | the empty set, with room for every position asked for and less than one word to spare |
| `Bitset.Clone` | src/porcupine/bitset.go:19-23 | a fresh array with the same words, so later changes to one do not show in the other |
| `Bitset.Set` | src/porcupine/bitset.go:29-33 | adds exactly one position to the set of members, for every size |
| `Bitset.Clear` | src/porcupine/bitset.go:35-39 | removes exactly one position |
| `Bitset.Get` | src/porcupine/bitset.go:41-44 | membership |
| `Bitset.Popcnt` | src/porcupine/bitset.go:46-52 | the cardinality of the set |
| `Bitset.Hash` | src/porcupine/bitset.go:54-60 | each bit of the hash: that of the size of the set, turned over once for every word that has the bit |
| `Bitset.HashBit` | src/porcupine/bitset.go:54-60 | the same of the hash of any words; `SameMembersSameWords` says that equal sets agree on it |
| `Bitset.Equals` | src/porcupine/bitset.go:62-72 | equality of the sets, for bitsets of the same size, both ways |
| `Bitset.SameMembersSameWords` | src/porcupine/bitset.go:54-72 | equal sets of one size have the same words and the same hash, so they share a bucket |
| `Words.SetBit` | src/porcupine/bitset.go:29-33 | or-ing a shifted one changes that bit and no other, for all 64 positions |
| `Words.ClearBit` | src/porcupine/bitset.go:35-39 | and-not of a shifted one changes that bit and no other |
| `DancingLinks.OrderKept` | src/porcupine/checker.go:159-177 | after any sequence of removals, next and prev of a remaining position are the nearest remaining ones |
| `DancingLinks.Detach` | src/porcupine/checker.go:162-166 | unhooking a return node, which may be the last, leaves the list wired as the original one without it |
| `DancingLinks.Attach` | src/porcupine/checker.go:170-174 | hooking a return node back in, as the last one removed, restores every pointer of the list |
| `DancingLinks.DetachCall` | src/porcupine/checker.go:160-161 | the same for a call node, whose next is followed unasked: it is there |
| `DancingLinks.AttachCall` | src/porcupine/checker.go:175-176 | the same on the way back |
| `DancingLinks.Lift` | src/porcupine/checker.go:159-167 | removes a call and its return, adjacent or not, following no nil pointer |
| `DancingLinks.Unlift` | src/porcupine/checker.go:169-177 | in stack order, restores every prev and next pointer that `Lift` changed, following no nil pointer |
| `LinkedEntries.InsertBefore` | src/porcupine/checker.go:70-81 | the four pointers after an insertion, and what stays, with and without a mark or a predecessor |
| `LinkedEntries.Length` | src/porcupine/checker.go:83-90 | the number of nodes of the chain |
| `LinkedEntries.MakeLinkedEntries` | src/porcupine/checker.go:121-138 | a doubly linked chain that carries the entries in order, calls matched with their returns |
| `Entries.MakeEntries` | src/porcupine/checker.go:39-68 | one call and one return per operation, each with its client, time and value, sorted by time with calls first among equals, ties in any order |
| `Entries.SortedHistoryRepresents` | src/porcupine/checker.go:39-68 | any such order puts a return before a call exactly when the one operation really precedes the other |
| `MemoCache.CacheContains` | src/porcupine/checker.go:145-152 | answers like a plain set of (set of ids, state) pairs |
| `MemoCache.Remember` | src/porcupine/checker.go:198-202 | adds the new configuration exactly when it was not there; the cached set is a private copy |
| `MemoCache.AppendCaches` | src/porcupine/checker.go:140-152 | a bucketed append is an insertion into that set, whatever the hash collisions |
| `Search.CandidateMeaning` | src/porcupine/checker.go:190-213 | an operation can be next exactly when no other remaining operation returned before its call |
| `Search.FinishedIsLinearized` | src/porcupine/checker.go:179-253 | a successful search from a configuration yields a linearization of the remaining operations |
| `Search.LinearizedIsFinished` | src/porcupine/checker.go:179-253 | every linearization of the remaining operations is one the search can find |
| `Search.SearchMeansLinearizable` | src/porcupine/checker.go:179-253 | the search can finish if and only if the history is linearizable |
| `SearchState.AdvanceKeeps` | src/porcupine/checker.go:208-213 | passing over a call that was tried or is cached keeps the search invariant |
| `SearchState.PushKeeps` | src/porcupine/checker.go:198-207 | linearizing a call keeps it, memo included |
| `SearchState.PopKeeps` | src/porcupine/checker.go:235-241 | backtracking keeps it: the abandoned configuration cannot finish |
| `SearchState.DeadEnd` | src/porcupine/checker.go:214-241 | at a return entry the current configuration cannot finish, cached configurations included |
| `SearchState.FullPathFinishes` | src/porcupine/checker.go:244-252 | an emptied list means the initial configuration can finish |
| `SearchCoverage.PopCovers` | src/porcupine/checker.go:235-241 | a configuration is left for good only when every way on from it leads to one in the cache |
| `SearchCoverage.AllLeft` | src/porcupine/checker.go:190-243 | a search that runs dry has been in, and left, every configuration that can be reached |
| `Checker.RemovedMeaning` | src/porcupine/checker.go:190-243 | the nodes off the list are exactly the calls and returns of the linearized operations |
| `Checker.TryCall` | src/porcupine/checker.go:194-213 | one round at a call keeps list, bitset, stack, state and cache coupled to the search, and makes the measure smaller |
| `Checker.Backtrack` | src/porcupine/checker.go:235-241 | one round at a return restores list, bitset and state to before the last call on the stack |
| `Checker.RecordLongest` | src/porcupine/checker.go:218-234 | each operation of the current stack gets it as its longest sequence exactly when it is longer |
| `Checker.CheckSingle` | src/porcupine/checker.go:179-253 | ends without following a nil pointer; true if and only if the search can finish; every reported sequence is a partial linearization containing its operation, the complete one after a success, and after a failure, if asked for, the longest there is |
| `PartialLinearizations.StackIsMeaningful` | src/porcupine/checker.go:218-234 | the stack has no repeated id, respects real time, is accepted by Step, and leads to the current state |
| `PartialLinearizations.PartialIsMeaningful` | src/porcupine/visualization.go:62-70 | every reported sequence can be replayed by Step from Init, so the visualizer's panic is unreachable |
| `PartialLinearizations.MeaningfulIsPartial` | src/porcupine/checker.go:190-243 | when nothing can be finished, every order without repetition that respects real time and Step is one the search goes through |
| `CheckOperations.CheckPartition` | src/porcupine/checker.go:365-373 | makeEntries, then checkSingle: true if and only if the operations are linearizable; a verbose failure gives each operation the longest order it occurs in, and a silent one gives nothing |
| `CheckOperations.CheckAll` | src/porcupine/checker.go:274-353 | Ok if and only if every partition is linearizable; a verbose check gives, for each partition, complete orders or the longest ones |
| `KvModel.Partition` | src/models/kv.go:18-34 | one part per key, keys in the order of strings and distinct, each part the operations on its key in their order, whatever order the map is ranged over |
| `KvModel.StoreAccepts` | src/models/kv.go:35-54 | a map of strings accepts a sequence if and only if each key's string accepts its subsequence |
| `KvModel.MinimalHead` | src/porcupine/model.go:28-31 | among per-key linearizations some head precedes, in real time, nothing that should come before it |
| `KvModel.Merge` | src/porcupine/model.go:28-31 | per-key linearizations can be merged into one that respects real time across keys |
| `KvModel.Locality` | src/models/kv.go:18-54 | a history is linearizable against a map if and only if every per-key history is against the single-key Step |
| `KvModel.CheckKv` | src/models/kv.go:17-54 | the checker with the key/value model decides linearizability against a map of strings |
| `IntSort.SortInts` | src/raft/raft_replication.go:91-91 | sorts in place into the sorted sequence of `SortSorts` |
| `IntSort.SortSorts` | src/raft/raft_replication.go:91-91 | sorted, same elements, same number of elements above every bound |
| `Quorums.MajoritiesMeet` | src/raft/raft_election.go:90-93 | two majorities share a peer, for every cluster size |
| `Quorums.MajorityIndexMeaning` | src/raft/raft_replication.go:88-94 | for odd and even sizes, the greatest index that n/2+1 entries have reached; those peers are a majority in the sense of elections |
| `RaftServer.BackOff` | src/raft/raft_replication.go:126-139 | stops at the last earlier index of another term or just under the boundary, never skipping one |
| `RaftMeaning.BecomeFollowerMeaning` | src/raft/raft.go:111-132 | stepping down, field by field |
| `RaftMeaning.BecomeCandidateMeaning` | src/raft/raft.go:134-147 | standing for election, field by field |
| `RaftMeaning.BecomeLeaderMeaning` | src/raft/raft.go:149-163 | taking office, field by field |
| `RaftMeaning.RequestVoteMeaning` | src/raft/raft_election.go:160-201 | exactly when the protocol step grants a vote, and all it changes |
| `RaftMeaning.HandleVoteReplyMeaning` | src/raft/raft_election.go:68-98 | exactly when the protocol step elects |
| `RaftMeaning.StartMeaning` | src/raft/raft.go:201-218 | the index, the term and the one entry more of the protocol step |
| `RaftMeaning.AppendEntriesMeaning` | src/raft/raft_replication.go:34-86 | exactly when the protocol step accepts, and the log and commit index then |
| `RaftMeaning.HandleAppendReplyMeaning` | src/raft/raft_replication.go:106-160 | the back-off and the advance of the protocol step, without the functions that compute them |
| `RaftMeaning.ReplicateArgsMeaning` | src/raft/raft_replication.go:176-199 | what a request carries |
| `RaftMeaning.AcceptSnapshotMeaning` | src/raft/raft_compaction.go:24-47 | exactly when a snapshot replaces the log |
| `RaftMeaning.HandleInstallReplyMeaning` | src/raft/raft_compaction.go:56-83 | when the books take the snapshot over |
| `RaftMeaning.TakeSnapshotMeaning` | src/raft/raft_compaction.go:7-21 | when the boundary moves |
| `RaftMeaning.RestartMeaning` | src/raft/raft_persistence.go:40-83 | what is left after a crash |
| `RaftInvariant.OneLeaderPerTerm` | src/raft/raft_election.go:90-93 | a majority of votes in a term that has a leader is for that leader |
| `RaftInvariant.LeaderLogOk` | src/raft/raft.go:201-218 | a leader's log holds every entry where its term's leader put it, with terms never decreasing |
| `RaftInvariant.AcceptedLog` | src/raft/raft_replication.go:52-73 | after an accepted request the follower's log is the leader's log up to the request's end |
| `RaftSteps.TimeoutLocal` | src/raft/raft.go:134-147 | becoming a candidate keeps the invariant, its vote on record |
| `RaftSteps.VoteRequestLocal` | src/raft/raft_election.go:160-201 | a granted vote is the server's only one in the term and goes to a log no less up to date |
| `RaftSteps.VoteResponseLocal` | src/raft/raft_election.go:68-98 | a counted vote was cast; a winner is its term's first and only leader |
| `RaftSteps.StartLocal` | src/raft/raft.go:201-218 | a leader's append keeps the invariant |
| `RaftSteps.ReplicateLocal` | src/raft/raft_replication.go:162-204 | what a leader sends is a slice of its own log, or the prefix its snapshot covers |
| `RaftSteps.AppendRequestLocal` | src/raft/raft_replication.go:34-86 | handling AppendEntries keeps the invariant, accepted or not |
| `RaftSteps.AppendResponseLocal` | src/raft/raft_replication.go:106-160 | so does its reply handler: matchIndex only counts what was acknowledged |
| `RaftSteps.InstallRequestLocal` | src/raft/raft_compaction.go:24-47 | an installed snapshot leaves a prefix of the leader's log |
| `RaftSteps.InstallResponseLocal` | src/raft/raft_compaction.go:56-83 | the reply handler of InstallSnapshot keeps the books on record |
| `RaftSteps.RestartServer` | src/raft/raft_persistence.go:40-83 | a crash and restart from what was persisted keeps the invariant |
| `RaftSteps.StepKeeps` | src/raft/raft.go:76-109 | every step of every kind keeps the invariant |
| `RaftRuns.ElectionSafety` | src/raft/raft_election.go:54-125 | in every run, whoever leads a term at any two moments is the same server |
| `RaftRuns.LogMatching` | src/raft/raft_replication.go:52-73 | in every run, two logs, at any two moments, with the same term at an index are identical up to it; terms never decrease along a log |
| `RaftRange.HandlersInRange` | src/raft/raft_replication.go:126-159 | in every run, whatever reply arrives and whatever round starts, the handler looks up no index outside the log or the books |
| `RaftCompleteness.LeaderCompleteness` | src/raft/raft_replication.go:150-159 | what a majority has acknowledged in a term is in the log of every leader of a later term |
| `RaftCompleteness.HoldStep` | src/raft/raft_log.go:109-111 | every step that meets the delivery hypothesis keeps, on each server and at each vote, what was acknowledged |
| `RaftCompleteness.InstallHolds` | src/raft/raft_log.go:138-150 | a snapshot that reaches as far as the log it replaces loses nothing that was acknowledged |
| `RaftSafety.CommitStep` | src/raft/raft_replication.go:77-83 | every such step keeps each commit index and each snapshot, announced, sent or local, covered by an entry committed in some term |
| `RaftSafety.CommittedReachesLeaders` | src/raft/raft_replication.go:150-159 | in every run meeting the hypothesis, whatever is committed in a term is, with everything before it, in the log of every leader of a later term, at any moment, even one before the commit |
| `RaftSafety.HeldReachesLeaders` | src/raft/raft_replication.go:77-83 | so what any server holds below its commit index is in the log of every leader of a higher term |
| `RaftSafety.StateMachineSafety` | src/raft/raft_application.go:17-24 | in every such run, no two servers ever apply different entries at one index |
| `RaftApplied.FirmStays` | src/raft/raft_replication.go:70-73 | a step in order leaves the log as it was up to any committed entry it holds |
| `RaftApplied.AppliedStays` | src/raft/raft_application.go:17-35 | in every run meeting the hypothesis, an entry once handed to a service is in its server's log, at that index, ever after |
| `RaftApplied.SnapshotsInRange` | src/raft/raft_compaction.go:12-19 | so `Snapshot` at an index the service was handed never panics |
| `RaftDeliveries.DeliveriesCover` | src/raft/raft_application.go:11-48 | in every such run without InstallSnapshot, a service has been handed, without a gap, exactly the log up to `lastApplied` |
| `RaftCounterexample.LateHeartbeatBreaksSafety` | src/raft/raft_log.go:109-111 | a run of three servers that installs no snapshot, in which a late heartbeat makes two servers apply different commands at index 1 |
| `RaftCounterexample.SnapshotCanPanic` | src/raft/raft_compaction.go:12-19 | a run of three servers that installs no snapshot, after which `Snapshot` at an index the service was handed panics |
| `RaftInstallCounterexample.LateSnapshotBreaksSafety` | src/raft/raft_log.go:138-150 | a run of three servers that accepts every AppendEntries in order, in which a late InstallSnapshot makes two servers apply different commands at index 2 |
| `RaftLogs.PerformRefines` | src/raft/raft_log.go:105-150 | each operation on boundary and tail agrees with the same operation on a full log |
| `RaftLogs.InterleavingsRefine` | src/raft/raft_log.go:105-150 | any interleaving refines the full log that took no snapshot and never restarted; the first tail entry keeps the boundary's term |
| `RaftLogs.TailMeaning` | src/raft/raft_log.go:61-76 | above the boundary the tail holds the full log's entries, at it the same term |
| `RaftLogs.RaftLog.constructor` | src/raft/raft_log.go:18-30 | stands for the covered prefix followed by the entries |
| `RaftLogs.RaftLog.Size` | src/raft/raft_log.go:62-64 | the length of the full log |
| `RaftLogs.RaftLog.Idx` | src/raft/raft_log.go:66-72 | the position of a logical index in the tail |
| `RaftLogs.RaftLog.At` | src/raft/raft_log.go:74-76 | the full log's entry above the boundary, its term at it |
| `RaftLogs.RaftLog.Last` | src/raft/raft_log.go:94-96 | the full log's last index and term |
| `RaftLogs.RaftLog.Tail` | src/raft/raft_log.go:98-103 | the full log from an index on; nothing past the end |
| `RaftLogs.RaftLog.Append` | src/raft/raft_log.go:105-107 | the full log grows by the entry |
| `RaftLogs.RaftLog.AppendFrom` | src/raft/raft_log.go:109-111 | the full log is cut after an index and continued |
| `RaftLogs.RaftLog.DoSnapshot` | src/raft/raft_log.go:121-135 | the full log is unchanged, the boundary and its term move |
| `RaftLogs.RaftLog.InstallSnapshot` | src/raft/raft_log.go:138-150 | the full log becomes the covered prefix, whatever was there |
| `RaftLogs.RaftLog.ReadPersist` | src/raft/raft_log.go:33-53 | restores the full log that was written |
| `RaftNode.Raft.PersistLocked` | src/raft/raft_persistence.go:17-36 | the persisted term, vote, log and snapshot are the current ones |
| `RaftNode.Raft.ReadPersist` | src/raft/raft_persistence.go:40-83 | restores them, the snapshot included, and commits up to the boundary; nothing if nothing was ever written |
| `RaftNode.Raft.constructor` | src/raft/raft.go:248-284 | the restart step, on whatever the persister holds: every field of the new server |
| `RaftNode.Raft.BecomeFollowerLocked` | src/raft/raft.go:111-132 | which fields change, and that a new term is written |
| `RaftNode.Raft.BecomeCandidateLocked` | src/raft/raft.go:134-147 | a new term and a vote for itself, both written, unless it leads |
| `RaftNode.Raft.BecomeLeaderLocked` | src/raft/raft.go:149-163 | the loop resets all of nextIndex and matchIndex, and nothing else changes but the role |
| `RaftNode.Raft.IsMoreUptoDateLocked` | src/raft/raft_election.go:21-28 | the log's last term and index come after the candidate's, term first |
| `RaftNode.Raft.HandleRequestVote` | src/raft/raft_election.go:160-201 | exactly when a vote is granted: the term is not behind, no vote for another in it, and the candidate's log does not end before the server's; what is then written; and that nothing else changes |
| `RaftNode.Raft.StartElection` | src/raft/raft_election.go:100-125 | counts itself and asks exactly the other peers, with its last index and term, or does nothing when the context is lost |
| `RaftNode.Raft.HandleVote` | src/raft/raft_election.go:68-98 | a granted vote of this election counts; the candidate takes office exactly when more than half of the peers have been counted |
| `RaftNode.Raft.StartCommand` | src/raft/raft.go:201-218 | a leader's log grows by the command at the index it returns, and is written; on any other server nothing changes |
| `RaftNode.Raft.HandleAppendEntries` | src/raft/raft_replication.go:34-86 | exactly when a request is accepted; the log then is what it was up to the predecessor, followed by the entries, and is written; how the commit index moves; and that nothing else changes |
| `RaftNode.Raft.GetMajorityIndexLocked` | src/raft/raft_replication.go:88-94 | the greatest index that a majority has reached, the books untouched |
| `RaftNode.Raft.BackOffFrom` | src/raft/raft_replication.go:135-138 | ends at the last earlier entry of another term, or under the boundary |
| `RaftNode.Raft.HandleAppendReplyLocked` | src/raft/raft_replication.go:106-160 | after a refusal only that peer's next index changes, back to the start of a term or to the boundary; after an acceptance its two books do, and the commit index moves exactly when the greatest index a majority reached is new and of the leader's term |
| `RaftNode.Raft.StartReplication` | src/raft/raft_replication.go:162-204 | own entry counted; each other peer above the boundary gets exactly the log from its next index on with the entry before it, the others are told to be behind |
| `RaftNode.Raft.HandleInstallSnapshot` | src/raft/raft_compaction.go:24-47 | a snapshot from a leader not behind, above the boundary, replaces log and snapshot, in memory and in the persister; any other only aligns the term |
| `RaftNode.Raft.HandleInstallReplyLocked` | src/raft/raft_compaction.go:56-83 | the peer has matched the snapshot, unless it had matched as much |
| `RaftNode.Raft.Snapshot` | src/raft/raft_compaction.go:7-21 | wherever the source does not panic, only the boundary moves, and only over committed entries |
| `RaftNode.Raft.CollectCommitted` | src/raft/raft_application.go:11-48 | hands over exactly the entries after the last applied, or the boundary, up to the last committed one the log holds, each with its index |
| `ShardTables.GidWithMaxShards` | src/shardctrler/state_machine.go:182-202 | the smallest group with the most shards, group 0 while it has any, whatever order the map is ranged over |
| `ShardTables.GidWithMinShards` | src/shardctrler/state_machine.go:204-218 | the smallest group but 0 with the fewest shards |
| `ShardTables.OneAssignment` | src/shardctrler/state_machine.go:89-96 | a table determines the shard array, so the order of writing it does not matter |
| `ShardBalance.EveryGroupEligible` | src/shardctrler/state_machine.go:211-216 | conservation of the shards: the search for the emptiest group considers every group but 0 |
| `ShardBalance.ShiftConsistent` | src/shardctrler/state_machine.go:83-86 | a round moves one shard and loses none |
| `ShardBalance.ShiftDecreases` | src/shardctrler/state_machine.go:77-87 | a round leaves fewer shards on group 0, or as many and a smaller sum of squared loads |
| `ShardBalance.Rebalance` | src/shardctrler/state_machine.go:77-87 | the loop ends, from every table, in a table that agrees with the assignment and in which it would stop |
| `ShardBalance.RebalanceIsFair` | src/shardctrler/state_machine.go:77-87 | from every table with a group, even unbalanced by Move, all shards end in groups with loads at most one apart |
| `ShardBalance.RebalanceIntoNew` | src/shardctrler/state_machine.go:77-96 | from a balanced assignment, shards move only from old groups to new ones |
| `ShardFewest.ShiftLevels` | src/shardctrler/state_machine.go:77-87 | groups that start above the final least load only give, the others only receive, and no receiver fills up while a giver is drained |
| `ShardFewest.RebalanceMovesFewest` | src/shardctrler/state_machine.go:77-96 | from every assignment to live groups, even unbalanced by Move, no balanced assignment moves fewer shards |
| `ShardRounds.JoinRounds` | src/shardctrler/state_machine.go:77-96 | from every served configuration, Join is a sequence of rounds on the shard array: the lowest shard of group 0, or of the fullest group, goes to the emptiest, until none is left |
| `ShardRounds.RoundsAgree` | src/shardctrler/state_machine.go:77-87 | the rounds leave no choice, so they fix the outcome |
| `ShardRounds.LeaveRounds` | src/shardctrler/state_machine.go:121-149 | Leave sets shards aside group by group as named, the lowest first, and gives each in turn to the group that is then the emptiest |
| `ShardBalance.DepartConsistent` | src/shardctrler/state_machine.go:121-133 | taking groups out sets exactly their shards aside |
| `ShardBalance.SpreadOne` | src/shardctrler/state_machine.go:138-141 | a shard set aside goes to the emptiest group, or to group -1 when only group 0 is left, and no shard is lost |
| `ShardBalance.SpreadKeeps` | src/shardctrler/state_machine.go:137-142 | handing shards out keeps loads level, moves nothing else, and leaves every shard in a group |
| `ShardCtrler.CopyGroups` | src/shardctrler/state_machine.go:172-180 | an equal map |
| `ShardCtrler.AddGroups` | src/shardctrler/state_machine.go:33-40 | the union in which a group that was there keeps its servers |
| `ShardCtrler.MakeTable` | src/shardctrler/state_machine.go:53-59 | every group and every owner with its shards in order |
| `ShardCtrler.TableConsistent` | src/shardctrler/state_machine.go:53-59 | that table agrees with the shard array |
| `ShardCtrler.Even` | src/shardctrler/state_machine.go:77-87 | the loop ends at `Rebalance` |
| `ShardCtrler.Flatten` | src/shardctrler/state_machine.go:89-96 | the array the table agrees with |
| `ShardCtrler.TakeOut` | src/shardctrler/state_machine.go:121-133 | the groups left, the table left, and the unassigned shards in order |
| `ShardCtrler.HandOut` | src/shardctrler/state_machine.go:137-142 | the loop ends at `Spread` |
| `ShardCtrler.JoinIsFair` | src/shardctrler/state_machine.go:23-100 | Join yields a served and balanced configuration if and only if it leaves a group and names none 0; with no group at all, all shards go to group -1 |
| `ShardCtrler.JoinMovesFewest` | src/shardctrler/state_machine.go:23-100 | from every served configuration, even unbalanced by Move, Join moves as few shards as any balanced assignment to the same groups would |
| `ShardCtrler.JoinMovesIntoNew` | src/shardctrler/state_machine.go:23-100 | from a fair configuration with groups, shards move only to groups that joined |
| `ShardCtrler.LeaveMoves` | src/shardctrler/state_machine.go:102-155 | exactly the shards of departing groups move; every shard stays served and balance is kept |
| `ShardCtrler.LeaveMovesFewest` | src/shardctrler/state_machine.go:102-155 | no assignment to the remaining groups moves fewer shards |
| `ShardCtrler.JoinChanges` | src/shardctrler/state_machine.go:33-40 | the groups after a Join and their servers |
| `ShardCtrler.LeaveChanges` | src/shardctrler/state_machine.go:121-133 | the groups after a Leave and their servers |
| `ShardCtrler.MoveChanges` | src/shardctrler/state_machine.go:157-170 | the named shard goes to the named group, no other shard and no group changes |
| `ShardCtrler.Run` | src/shardctrler/state_machine.go:9-155 | configuration i of a run has number i and all its shards |
| `ShardCtrler.RunPrefix` | src/shardctrler/state_machine.go:97-97 | further operations change no earlier configuration |
| `ShardCtrler.RunsServe` | src/shardctrler/state_machine.go:9-155 | in every run whose Joins leave a group and name none 0 and whose Moves name a live one, every configuration is served, and balanced if there was no Move |
| `ShardCtrler.EmptyJoinUnserves` | src/shardctrler/state_machine.go:77-96 | an empty Join on the initial configuration gives all shards to a group -1 that does not exist |
| `ShardCtrler.CtrlerStateMachine.constructor` | src/shardctrler/state_machine.go:9-13 | the run of no operations |
| `ShardCtrler.CtrlerStateMachine.Query` | src/shardctrler/state_machine.go:15-20 | the configuration of that number, or the latest |
| `ShardCtrler.CtrlerStateMachine.Join` | src/shardctrler/state_machine.go:23-100 | appends one configuration, a function of the last one, whatever order maps are ranged over, so equal operations give equal configurations on every replica; its groups and servers are the old ones and the new |
| `ShardCtrler.CtrlerStateMachine.Leave` | src/shardctrler/state_machine.go:102-155 | the same for Leave; its groups and servers are the old ones but those named |
| `ShardCtrler.CtrlerStateMachine.Move` | src/shardctrler/state_machine.go:157-170 | the same for Move; only the named shard changes, to the named group |
| `KvReplay.DuplicateMeaning` | src/kvraft/server.go:64-67 | a request is a duplicate exactly when the log holds one of that client with at least its number |
| `KvReplay.FreshTakeEffect` | src/kvraft/server.go:186-202 | for every log, the map is what the operations with a new greatest number, alone, produce |
| `KvReplay.PlainValue` | src/kvraft/state_machine.go:20-28 | after any operations a key holds the value of the last Put on it followed by those of the later Appends, in order |
| `KvReplay.PlainKeys` | src/kvraft/state_machine.go:13-28 | a key is there exactly when something was put or appended to it |
| `KvReplay.ReceiveMeaning` | src/kvraft/server.go:177-224 | what one message changes: index, key and table entry, and nothing else |
| `KvAgreement.StepsAgree` | src/models/kv.go:40-54 | the service and the model that histories are checked against agree on the map and on the answer to a Get |
| `KvAgreement.ServiceAccepted` | src/models/kv.go:40-54 | the model accepts whatever the service answers to operations executed in order |
| `KvReplay.ExactlyOnce` | src/kvraft/server.go:186-202 | the operations that take effect are the first occurrences, in order, exactly when each client's first occurrences come in increasing order; then the map is theirs |
| `KvReplay.OneOccurrenceTakesEffect` | src/kvraft/server.go:186-202 | then, of all occurrences of an operation, exactly one takes effect |
| `KvReplay.LateOperationIsLost` | src/kvraft/server.go:64-67 | a log out of order in which an Append is lost |
| `KvReplay.RedeliveryIsHarmless` | src/kvraft/server.go:186-202 | executing again anything already in the log changes neither map nor table |
| `KvReplay.StaleChangesNothing` | src/kvraft/server.go:178-184 | any number of stale indexes changes nothing |
| `KvReplay.EventKeeps` | src/kvraft/server.go:174-227 | a command, an installed snapshot or a restart keeps every replica and every snapshot equal to a replay |
| `KvReplay.ReplicasReplay` | src/kvraft/server.go:174-252 | in every run, each replica holds the replay of the prefix it has reached, so replicas at one point are equal |
| `ServiceOnRaft.RoundLeads` | src/raft/raft_application.go:22-35 | a round of the ticker sends the commands of the log in order, from the last index applied to the new one |
| `ServiceOnRaft.ConsumedHost` | src/kvraft/server.go:177-224 | the next message on the channel brings a replica from one replay of its server's log to the next |
| `ServiceOnRaft.InstalledHost` | src/raft/raft_compaction.go:24-47 | a snapshot from the leader replaces log and persisted snapshot together |
| `ServiceOnRaft.ProtocolStep` | src/raft/raft_application.go:4-57 | every Raft step in order keeps every replica, its channel and its persisted snapshot equal to replays of its server's log |
| `ServiceOnRaft.ServiceStep` | src/kvraft/server.go:174-235 | so does consuming a message and taking a snapshot |
| `ReplicatedService.ServiceReplays` | src/kvraft/server.go:174-252 | in every run of the whole system meeting the hypothesis, each replica is the replay of its server's log up to where it has got, up to `lastApplied` once its channel is empty, with each Put and Append once |
| `ReplicatedService.ReplicasAgree` | src/kvraft/server.go:174-252 | at any two moments, what one replica has built another that has got as far has built on the way |
| `ReplicatedService.ServiceNeverPanics` | src/kvraft/server.go:211-214 | a waiting message can always be consumed, and the snapshot taken after it never makes Raft panic |
| `KvServer.KVServer.constructor` | src/kvraft/server.go:145-171 | the start from a persisted snapshot, at index 0 |
| `KvServer.KVServer.RestoreFromSnapshot` | src/kvraft/server.go:237-252 | map and table become the snapshot's; an empty one changes nothing |
| `KvServer.KVServer.ApplyToStateMachine` | src/kvraft/server.go:254-269 | a Put replaces, an Append continues, a Get changes nothing; the reply to each, also for a missing key |
| `KvServer.KVServer.ApplyCommand` | src/kvraft/server.go:186-202 | index, map and table after the command; a duplicate changes neither map nor table and gets the recorded reply |
| `KvServer.KVServer.ApplyTask` | src/kvraft/server.go:174-227 | the replica before and after each message of the channel, and exactly the messages after which a snapshot was taken, of which state |

## Left out

- Leader Completeness and State Machine Safety outside the hypothesis `InOrder`: the unconditional cut of the log and the discarded tail defeat them, as the two counterexample modules show for each half of the hypothesis. The hypothesis is sufficient, not necessary: a late request or snapshot may also do no harm.
- Liveness, timers and the convergence of nextIndex: they depend on real time.
- The race in the snapshot branch of `applicationTicker`, which reads the snapshot and its index outside the lock: the model reads both at the locked end of that branch.
- The time between collecting committed entries and advancing `lastApplied`: one step, since nothing else reads it.
- Sharing of storage between `tail` and the log: message entries are values.
- Decoding errors in `readPersist` and `restoreFromSnapshot`: what was encoded is what is decoded.
- Replies routed through `notifyChans`: keyed by index only; the theorems are about replicated state.
- checkParallel's goroutines, kill flag and timeouts, its sequential meaning excepted; event histories (`checkEvents`, `renumber`, `convertEntries`); removing repeated partial linearizations; the HTML of the visualizer.
- CheckOperations.CheckAll: asks for at least one partition, because `checkParallel` waits for a result that never comes when there is none (with a timeout, it answers Unknown).
- KvModel.CheckKv: asks for a non-empty history, for the same reason.
- RaftNode.Raft.Snapshot: not stated where the source panics (an index above the boundary, at or below commitIndex, that the log does not hold).
- RaftDeliveries.DeliveriesCover: only for runs without InstallSnapshot, whose services are handed a snapshot in place of entries; `ReplicatedService` covers both.
- src/shardctrler/server.go: the same duplicate table as src/kvraft/server.go.
- src/shardctrler_original, MapReduce, labrpc, labgob, the test harnesses and the unimplemented src/shardkv server.
