/** The key/value server and its state machine, updated in place (src/kvraft/server.go,
    src/kvraft/state_machine.go).  What a client is told, and when Raft's state is large enough for
    a snapshot, come from outside. */
module KvServer {
  import opened KvReplay

  class MemoryKVStateMachine {
    var KV: KV

    constructor ()
      ensures KV == map[]
    {
      KV := map[];
    }

    method Get(key: string) returns (value: string, err: Err)
      ensures OpReply(value, err) == if key in KV then OpReply(KV[key], OK) else OpReply("", ErrNoKey)
    {
      if key in KV {
        return KV[key], OK;
      }
      return "", ErrNoKey;
    }

    method Put(key: string, value: string) returns (err: Err)
      modifies this
      ensures KV == old(KV)[key := value] && err == OK
    {
      KV := KV[key := value];
      err := OK;
    }

    /** Appending to a missing key is putting. */
    method Append(key: string, value: string) returns (err: Err)
      modifies this
      ensures KV == old(KV)[key := (if key in old(KV) then old(KV)[key] else "") + value] && err == OK
    {
      KV := KV[key := (if key in KV then KV[key] else "") + value];
      err := OK;
    }
  }

  class KVServer {
    var stateMachine: MemoryKVStateMachine
    var lastApplied: nat
    var duplicateTable: DupTable

    function State(): Replica
      reads this, stateMachine
    {
      Replica(Store(stateMachine.KV, duplicateTable), lastApplied)
    }

    /** `StartKVServer`. */
    constructor (snapshot: Snapshot)
      ensures State() == Started(snapshot) && fresh(stateMachine)
      ensures lastApplied == 0
      ensures Store(stateMachine.KV, duplicateTable) == if snapshot.NoSnapshot? then Store(map[], map[]) else snapshot.store
    {
      lastApplied := 0;
      stateMachine := new MemoryKVStateMachine();
      duplicateTable := map[];
      new;
      RestoreFromSnapshot(snapshot);
    }

    /** `restoreFromSnapshot`: a new state machine, so a snapshot shares nothing with the old one. */
    method RestoreFromSnapshot(snapshot: Snapshot)
      modifies this`stateMachine, this`duplicateTable
      ensures State() == old(State()).(store := Restored(old(State()).store, snapshot))
      ensures stateMachine == old(stateMachine) || fresh(stateMachine)
    {
      if snapshot.NoSnapshot? {
        return;
      }
      stateMachine := new MemoryKVStateMachine();
      RestoreInto(snapshot);
    }

    method RestoreInto(snapshot: Snapshot)
      requires snapshot.Snapshot?
      modifies this`duplicateTable, stateMachine
      ensures State() == old(State()).(store := snapshot.store)
    {
      stateMachine.KV := snapshot.store.kv;
      duplicateTable := snapshot.store.dup;
    }

    /** `makeSnapshot`. */
    method MakeSnapshot() returns (snapshot: Snapshot)
      ensures snapshot == Snapshot(State().store)
    {
      snapshot := Snapshot(Store(stateMachine.KV, duplicateTable));
    }

    /** `requestDuplicate`. */
    predicate RequestDuplicate(clientId: int, seqId: int)
      reads this
    {
      clientId in duplicateTable && seqId <= duplicateTable[clientId].seqId
    }

    /** `applyToStateMachine`. */
    method ApplyToStateMachine(op: Op) returns (reply: OpReply)
      modifies stateMachine
      ensures stateMachine.KV == Effect(old(stateMachine.KV), op) && reply == ReplyTo(old(stateMachine.KV), op)
      ensures op.opType == OpGet ==> stateMachine.KV == old(stateMachine.KV)
      ensures op.opType == OpPut ==> stateMachine.KV == old(stateMachine.KV)[op.key := op.value]
      ensures op.opType == OpAppend ==>
                var kv := old(stateMachine.KV);
                stateMachine.KV == kv[op.key := (if op.key in kv then kv[op.key] else "") + op.value]
      ensures op.opType == OpGet && op.key in old(stateMachine.KV) ==> reply == OpReply(old(stateMachine.KV)[op.key], OK)
      ensures op.opType == OpGet && op.key !in old(stateMachine.KV) ==> reply == OpReply("", ErrNoKey)
      ensures op.opType != OpGet ==> reply == OpReply("", OK)
    {
      var value, err := "", OK;
      match op.opType {
        case OpGet => value, err := stateMachine.Get(op.key);
        case OpPut => err := stateMachine.Put(op.key, op.value);
        case OpAppend => err := stateMachine.Append(op.key, op.value);
      }
      reply := OpReply(value, err);
    }

    /** The command branch of `applyTask`, past the check for stale indexes. */
    method ApplyCommand(index: nat, op: Op) returns (reply: OpReply)
      requires index > lastApplied
      modifies this`lastApplied, this`duplicateTable, stateMachine
      ensures State() == Receive(old(State()), CommandMsg(index, op))
      ensures reply == if op.opType != OpGet && Duplicate(old(duplicateTable), op.clientId, op.seqId)
                       then old(duplicateTable)[op.clientId].reply else ReplyTo(old(stateMachine.KV), op)
      ensures Took(old(State()), State(), CommandMsg(index, op))
    {
      ReceiveMeaning(State(), CommandMsg(index, op));
      lastApplied := index;
      if op.opType != OpGet && RequestDuplicate(op.clientId, op.seqId) {
        reply := duplicateTable[op.clientId].reply;
      } else {
        reply := ApplyToStateMachine(op);
        if op.opType != OpGet {
          duplicateTable := duplicateTable[op.clientId := LastOperationInfo(op.seqId, reply)];
        }
      }
    }

    /** `applyTask` on the messages of the channel; `large[k]` says that Raft's state was too large
        after message `k`.  A snapshot taken after a command holds the state that command left. */
    method ApplyTask(messages: seq<ApplyMsg>, large: seq<bool>) returns (taken: seq<(nat, Snapshot)>)
      requires |large| == |messages|
      modifies this, stateMachine
      ensures State() == ReceiveAll(old(State()), messages)
      ensures stateMachine == old(stateMachine) || fresh(stateMachine)
      ensures taken == Snapshots(old(State()), messages, large)
      ensures exists rs, ks :: TookAll(messages, rs) && rs[0] == old(State()) && rs[|messages|] == State()
                               && TakenAt(messages, large, rs, ks, taken)
    {
      hide TookAll, TakenAt, Took;
      ghost var rs := ReceiveAllMeaning(State(), messages);
      ghost var ks := SnapshotsMeaning(State(), messages, large, rs);
      taken := [];
      assert messages[..0] == [];
      for k := 0 to |messages|
        invariant State() == ReceiveAll(old(State()), messages[..k])
        invariant stateMachine == old(stateMachine) || fresh(stateMachine)
        invariant taken == Snapshots(old(State()), messages[..k], large[..k])
      {
        assert messages[..k + 1][..k] == messages[..k] && large[..k + 1][..k] == large[..k];
        match messages[k] {
          case CommandMsg(index, op) =>
            if index > lastApplied {
              var reply := ApplyCommand(index, op);
              if large[k] {
                var snapshot := MakeSnapshot();
                taken := taken + [(index, snapshot)];
              }
            }
          case SnapshotMsg(snapshot, index) =>
            RestoreFromSnapshot(snapshot);
            lastApplied := index;
          case InvalidMsg =>
        }
      }
      assert messages[..|messages|] == messages && large[..|messages|] == large;
    }
  }

  /** The snapshots taken: after each command that is not stale, if Raft's state is too large then,
      the state so far with the command's index. */
  function Snapshots(r: Replica, messages: seq<ApplyMsg>, large: seq<bool>): seq<(nat, Snapshot)>
    requires |large| == |messages|
  {
    if messages == [] then []
    else
      var k := |messages| - 1;
      var earlier := Snapshots(r, messages[..k], large[..k]);
      if large[k] && messages[k].CommandMsg? && messages[k].index > ReceiveAll(r, messages[..k]).lastApplied
      then earlier + [(messages[k].index, Snapshot(ReceiveAll(r, messages).store))]
      else earlier
  }

  /** Message `k` is a command that is not stale, after which Raft's state is too large. */
  ghost predicate Triggers(messages: seq<ApplyMsg>, large: seq<bool>, rs: seq<Replica>, k: nat)
    requires |large| == |messages| < |rs|
  {
    k < |messages| && large[k] && messages[k].CommandMsg? && messages[k].index > rs[k].lastApplied
  }

  /** The snapshots were taken after exactly these messages, in order, of the state each left. */
  ghost predicate TakenAt(messages: seq<ApplyMsg>, large: seq<bool>, rs: seq<Replica>, ks: seq<nat>, taken: seq<(nat, Snapshot)>) {
    && |large| == |messages| && |rs| == |messages| + 1 && |ks| == |taken|
    && (forall i, j | 0 <= i < j < |ks| :: ks[i] < ks[j])
    && (forall k: nat :: k in ks <==> Triggers(messages, large, rs, k))
    && (forall i | 0 <= i < |ks| :: ks[i] < |messages| && messages[ks[i]].CommandMsg?
                                    && taken[i] == (messages[ks[i]].index, Snapshot(rs[ks[i] + 1].store)))
  }

  lemma {:induction false} SnapshotsMeaning(r: Replica, messages: seq<ApplyMsg>, large: seq<bool>, rs: seq<Replica>)
    returns (ks: seq<nat>)
    requires |large| == |messages| && |rs| == |messages| + 1
    requires forall k | 0 <= k <= |messages| :: rs[k] == ReceiveAll(r, messages[..k])
    ensures TakenAt(messages, large, rs, ks, Snapshots(r, messages, large))
  {
    hide ReceiveAll;
    if messages == [] {
      ks := [];
    } else {
      var n := |messages| - 1;
      var front, flags := messages[..n], large[..n];
      forall k | 0 <= k <= n
        ensures rs[..n + 1][k] == ReceiveAll(r, front[..k])
      {
        assert front[..k] == messages[..k];
      }
      var before := SnapshotsMeaning(r, front, flags, rs[..n + 1]);
      assert messages[..n + 1] == messages;
      hide Snapshots, TakenAt;
      OneMoreMessage(messages, large, rs, before, Snapshots(r, front, flags));
      LastSnapshot(r, messages, large);
      ks := if Triggers(messages, large, rs, n) then before + [n] else before;
    }
  }

  lemma LastSnapshot(r: Replica, messages: seq<ApplyMsg>, large: seq<bool>)
    requires |large| == |messages| && messages != []
    ensures var k := |messages| - 1;
            var earlier := Snapshots(r, messages[..k], large[..k]);
            Snapshots(r, messages, large) ==
              if large[k] && messages[k].CommandMsg? && messages[k].index > ReceiveAll(r, messages[..k]).lastApplied
              then earlier + [(messages[k].index, Snapshot(ReceiveAll(r, messages).store))] else earlier
  {
  }

  lemma OneMoreMessage(
    messages: seq<ApplyMsg>, large: seq<bool>, rs: seq<Replica>, ks: seq<nat>, taken: seq<(nat, Snapshot)>)
    requires messages != [] && |large| == |messages| && |rs| == |messages| + 1
    requires var n := |messages| - 1; TakenAt(messages[..n], large[..n], rs[..n + 1], ks, taken)
    ensures var n := |messages| - 1;
            if Triggers(messages, large, rs, n)
            then TakenAt(messages, large, rs, ks + [n], taken + [(messages[n].index, Snapshot(rs[n + 1].store))])
            else TakenAt(messages, large, rs, ks, taken)
  {
    var n := |messages| - 1;
    forall k: nat
      ensures k in ks <==> k < n && Triggers(messages, large, rs, k)
    {
      assert k in ks <==> Triggers(messages[..n], large[..n], rs[..n + 1], k);
    }
    forall i | 0 <= i < |ks|
      ensures ks[i] < n
    {
      assert ks[i] in ks;
    }
    assert forall k: nat | Triggers(messages, large, rs, k) :: k < n || k == n;
    assert forall k: nat :: k in ks + [n] <==> k in ks || k == n;
  }
}
