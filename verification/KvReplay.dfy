/** The key/value service as a replay of the committed log (src/kvraft/server.go,
    src/kvraft/state_machine.go, src/kvraft/common.go): what the duplicate table lets through, and
    what every replica holds after any deliveries, snapshots and restarts. */
module KvReplay {

  datatype OpType = OpGet | OpPut | OpAppend
  datatype Op = Op(key: string, value: string, opType: OpType, clientId: int, seqId: int)
  datatype Err = OK | ErrNoKey
  datatype OpReply = OpReply(value: string, err: Err)
  datatype LastOperationInfo = LastOperationInfo(seqId: int, reply: OpReply)

  type KV = map<string, string>
  type DupTable = map<int, LastOperationInfo>

  /** What the service keeps, and what a snapshot encodes. */
  datatype Store = Store(kv: KV, dup: DupTable)

  // ----- one operation

  /** What `Put` and `Append` do to the map; a missing key counts as the empty string. */
  function Effect(kv: KV, op: Op): KV {
    match op.opType
    case OpGet => kv
    case OpPut => kv[op.key := op.value]
    case OpAppend => kv[op.key := (if op.key in kv then kv[op.key] else "") + op.value]
  }

  function ReplyTo(kv: KV, op: Op): OpReply {
    if op.opType != OpGet then OpReply("", OK)
    else if op.key in kv then OpReply(kv[op.key], OK)
    else OpReply("", ErrNoKey)
  }

  /** `requestDuplicate`. */
  predicate Duplicate(dup: DupTable, clientId: int, seqId: int) {
    clientId in dup && seqId <= dup[clientId].seqId
  }

  /** One committed command, as `applyTask` executes it. */
  function Execute(s: Store, op: Op): Store {
    if op.opType == OpGet then s
    else if Duplicate(s.dup, op.clientId, op.seqId) then s
    else Store(Effect(s.kv, op), s.dup[op.clientId := LastOperationInfo(op.seqId, ReplyTo(s.kv, op))])
  }

  function Empty(): Store {
    Store(map[], map[])
  }

  /** The specification: execute the log in order, from nothing. */
  function Replay(log: seq<Op>): Store {
    if log == [] then Empty() else Execute(Replay(log[..|log| - 1]), log[|log| - 1])
  }

  // ----- what the duplicate table lets through

  ghost predicate Writes(op: Op, clientId: int) {
    op.opType != OpGet && op.clientId == clientId
  }

  /** The table knows, for each client, the greatest sequence number in the log so far. */
  lemma {:induction false} DuplicateMeaning(log: seq<Op>, clientId: int, seqId: int)
    ensures Duplicate(Replay(log).dup, clientId, seqId) <==>
            exists i :: 0 <= i < |log| && Writes(log[i], clientId) && log[i].seqId >= seqId
  {
    if log != [] {
      var front, last := log[..|log| - 1], log[|log| - 1];
      DuplicateMeaning(front, clientId, seqId);
      DuplicateMeaning(front, last.clientId, last.seqId);
      if Duplicate(Replay(front).dup, clientId, seqId) {
        var i :| 0 <= i < |front| && Writes(front[i], clientId) && front[i].seqId >= seqId;
        assert log[i] == front[i];
      }
      if i :| 0 <= i < |log| && Writes(log[i], clientId) && log[i].seqId >= seqId {
        if i < |front| {
          assert front[i] == log[i];
        }
      }
    }
  }

  /** The operation at `j` is new: its number is greater than all its client's earlier ones. */
  ghost predicate Fresh(log: seq<Op>, j: int)
    requires 0 <= j < |log|
  {
    log[j].opType != OpGet && forall i | 0 <= i < j && Writes(log[i], log[j].clientId) :: log[i].seqId < log[j].seqId
  }

  /** The operation at `j` does not repeat an earlier one. */
  ghost predicate First(log: seq<Op>, j: int)
    requires 0 <= j < |log|
  {
    log[j].opType != OpGet && forall i | 0 <= i < j && Writes(log[i], log[j].clientId) :: log[i].seqId != log[j].seqId
  }

  ghost function FreshOps(log: seq<Op>): seq<Op> {
    if log == [] then []
    else FreshOps(log[..|log| - 1]) + if Fresh(log, |log| - 1) then [log[|log| - 1]] else []
  }

  /** The log without gets and without repetitions: what the clients asked for. */
  ghost function FirstOps(log: seq<Op>): seq<Op> {
    if log == [] then []
    else FirstOps(log[..|log| - 1]) + if First(log, |log| - 1) then [log[|log| - 1]] else []
  }

  /** A plain map that performs every operation it is given. */
  ghost function Plain(ops: seq<Op>): KV {
    if ops == [] then map[] else Effect(Plain(ops[..|ops| - 1]), ops[|ops| - 1])
  }

  /** The operation replaces the value of a key, or continues it. */
  ghost predicate Puts(op: Op, key: string) {
    op.opType == OpPut && op.key == key
  }

  ghost predicate Appends(op: Op, key: string) {
    op.opType == OpAppend && op.key == key
  }

  /** What the appends to a key add up to. */
  ghost function Appended(ops: seq<Op>, key: string): string {
    if ops == [] then ""
    else Appended(ops[..|ops| - 1], key) + if Appends(ops[|ops| - 1], key) then ops[|ops| - 1].value else ""
  }

  ghost function Value(kv: KV, key: string): string {
    if key in kv then kv[key] else ""
  }

  /** A key is there exactly when something was put or appended to it. */
  lemma {:induction false} PlainKeys(ops: seq<Op>, key: string)
    ensures key in Plain(ops) <==> exists j :: 0 <= j < |ops| && (Puts(ops[j], key) || Appends(ops[j], key))
  {
    if ops != [] {
      var front, last := ops[..|ops| - 1], ops[|ops| - 1];
      PlainKeys(front, key);
      if j :| 0 <= j < |ops| && (Puts(ops[j], key) || Appends(ops[j], key)) {
        assert j < |front| ==> front[j] == ops[j];
      }
      if j :| 0 <= j < |front| && (Puts(front[j], key) || Appends(front[j], key)) {
        assert front[j] == ops[j];
      }
      assert (Puts(last, key) || Appends(last, key)) ==> Puts(ops[|ops| - 1], key) || Appends(ops[|ops| - 1], key);
    }
  }

  /** A key holds the value of the last Put on it, at `p`, followed by those of the later Appends, in
      order; without a Put, those of all Appends. */
  lemma {:induction false} PlainValue(ops: seq<Op>, key: string, p: int)
    requires -1 <= p < |ops| && (p >= 0 ==> Puts(ops[p], key)) && forall j | p < j < |ops| :: !Puts(ops[j], key)
    ensures Value(Plain(ops), key) == (if p >= 0 then ops[p].value else "") + Appended(ops[p + 1..], key)
  {
    hide Plain, Appended, Value, Appends;
    if p == |ops| - 1 {
      assert ops[p + 1..] == [];
      JustPut(ops, key);
    } else {
      var front, tail := ops[..|ops| - 1], ops[p + 1..];
      PlainValue(front, key, p);
      ValueNext(ops, key);
      LastAppend(tail, key);
      var base, more := (if p >= 0 then ops[p].value else ""), Appended(front[p + 1..], key);
      var last := if Appends(ops[|ops| - 1], key) then ops[|ops| - 1].value else "";
      assert tail[..|tail| - 1] == front[p + 1..] && tail[|tail| - 1] == ops[|ops| - 1];
      assert base + (more + last) == base + more + last;
    }
  }

  /** No appends yet: nothing at all, or a Put just now. */
  lemma JustPut(ops: seq<Op>, key: string)
    requires ops != [] ==> Puts(ops[|ops| - 1], key)
    ensures Value(Plain(ops), key) == (if ops != [] then ops[|ops| - 1].value else "") + Appended([], key)
  {
    if ops != [] {
      assert ops[|ops| - 1].value + "" == ops[|ops| - 1].value;
    }
  }

  lemma LastAppend(ops: seq<Op>, key: string)
    requires ops != []
    ensures var last := ops[|ops| - 1];
            Appended(ops, key) == Appended(ops[..|ops| - 1], key) + if Appends(last, key) then last.value else ""
  {
  }

  lemma ValueNext(ops: seq<Op>, key: string)
    requires ops != [] && !Puts(ops[|ops| - 1], key)
    ensures var last := ops[|ops| - 1];
            Value(Plain(ops), key) == Value(Plain(ops[..|ops| - 1]), key) + if Appends(last, key) then last.value else ""
  {
    var kv := Plain(ops[..|ops| - 1]);
    assert Value(kv, key) + "" == Value(kv, key);
  }

  /** Where the last Put on a key is, if there is one. */
  lemma {:induction false} LastPut(ops: seq<Op>, key: string) returns (p: int)
    ensures -1 <= p < |ops| && (p >= 0 ==> Puts(ops[p], key)) && forall j | p < j < |ops| :: !Puts(ops[j], key)
  {
    p := |ops| - 1;
    if ops != [] && !Puts(ops[p], key) {
      p := LastPut(ops[..|ops| - 1], key);
    }
  }

  /** For every log: the map is what the new operations alone produce. */
  lemma {:induction false} FreshTakeEffect(log: seq<Op>)
    ensures Replay(log).kv == Plain(FreshOps(log))
  {
    if log != [] {
      var front, last := log[..|log| - 1], log[|log| - 1];
      FreshTakeEffect(front);
      assert FreshOps(front) + [] == FreshOps(front);
      if last.opType != OpGet {
        DuplicateMeaning(front, last.clientId, last.seqId);
        assert forall i | 0 <= i < |front| :: front[i] == log[i];
        assert Fresh(log, |log| - 1) <==> !Duplicate(Replay(front).dup, last.clientId, last.seqId);
        assert (FreshOps(front) + [last])[..|FreshOps(front)|] == FreshOps(front);
      }
    }
  }

  /** Each client's first occurrences come in increasing order of sequence numbers. */
  ghost predicate ClientsInOrder(log: seq<Op>) {
    forall i, j | 0 <= i < j < |log| && First(log, i) && First(log, j) && log[i].clientId == log[j].clientId ::
      log[i].seqId < log[j].seqId
  }

  lemma {:induction false} FirstOccurrence(log: seq<Op>, j: nat) returns (i: nat)
    requires j < |log| && log[j].opType != OpGet
    ensures i <= j && First(log, i) && log[i].clientId == log[j].clientId && log[i].seqId == log[j].seqId
    decreases j
  {
    i := j;
    if k :| 0 <= k < j && Writes(log[k], log[j].clientId) && log[k].seqId == log[j].seqId {
      i := FirstOccurrence(log, k);
    }
  }

  /** In order, first means new; and the other way round. */
  lemma InOrderMeaning(log: seq<Op>)
    ensures ClientsInOrder(log) <==> forall j | 0 <= j < |log| :: First(log, j) ==> Fresh(log, j)
  {
    if ClientsInOrder(log) {
      forall j | 0 <= j < |log| && First(log, j)
        ensures Fresh(log, j)
      {
        forall i | 0 <= i < j && Writes(log[i], log[j].clientId)
          ensures log[i].seqId < log[j].seqId
        {
          var k := FirstOccurrence(log, i);
        }
      }
    }
  }

  lemma {:induction false} FreshAreFirst(log: seq<Op>)
    ensures |FreshOps(log)| <= |FirstOps(log)|
    ensures |FreshOps(log)| == |FirstOps(log)| <==> forall j | 0 <= j < |log| :: First(log, j) ==> Fresh(log, j)
    ensures |FreshOps(log)| == |FirstOps(log)| ==> FreshOps(log) == FirstOps(log)
  {
    if log != [] {
      var front := log[..|log| - 1];
      FreshAreFirst(front);
      forall j | 0 <= j < |front|
        ensures (First(log, j) <==> First(front, j)) && (Fresh(log, j) <==> Fresh(front, j))
      {
        SamePrefix(log, j);
      }
    }
  }

  lemma SamePrefix(log: seq<Op>, j: nat)
    requires j + 1 < |log|
    ensures First(log, j) <==> First(log[..|log| - 1], j)
    ensures Fresh(log, j) <==> Fresh(log[..|log| - 1], j)
  {
    var front := log[..|log| - 1];
    assert forall i | 0 <= i < |front| :: front[i] == log[i];
  }

  /** Exactly the logs with clients in order perform every distinct Put and Append once, in the
      order of first occurrence, whatever repetitions they hold. */
  lemma ExactlyOnce(log: seq<Op>)
    ensures ClientsInOrder(log) <==> FreshOps(log) == FirstOps(log)
    ensures ClientsInOrder(log) ==> Replay(log).kv == Plain(FirstOps(log))
  {
    InOrderMeaning(log);
    FreshAreFirst(log);
    FreshTakeEffect(log);
  }

  /** In order, of all the occurrences of an operation exactly one takes effect, the first. */
  lemma OneOccurrenceTakesEffect(log: seq<Op>, j: nat) returns (k: nat)
    requires ClientsInOrder(log) && j < |log| && log[j].opType != OpGet
    ensures k <= j && Fresh(log, k) && log[k].clientId == log[j].clientId && log[k].seqId == log[j].seqId
    ensures forall i | 0 <= i < |log| && i != k && Writes(log[i], log[j].clientId) && log[i].seqId == log[j].seqId ::
              !Fresh(log, i)
  {
    InOrderMeaning(log);
    k := FirstOccurrence(log, j);
  }

  /** Out of order a client's operation is lost: here "b" never reaches the map. */
  lemma LateOperationIsLost()
    ensures var log := [Op("k", "a", OpAppend, 7, 2), Op("k", "b", OpAppend, 7, 1)];
            !ClientsInOrder(log) && Replay(log).kv == map["k" := "a"]
  {
    var log := [Op("k", "a", OpAppend, 7, 2), Op("k", "b", OpAppend, 7, 1)];
    assert First(log, 0) && First(log, 1);
    assert log[..1] == [log[0]] && [log[0]][..0] == [];
    assert Replay([]) == Empty();
    assert Replay([log[0]]) == Store(map["k" := "a"], map[7 := LastOperationInfo(2, OpReply("", OK))]) by {
      assert "" + "a" == "a";
    }
    assert Replay(log) == Execute(Replay(log[..1]), log[1]);
  }

  /** Delivering again anything already replayed changes nothing. */
  lemma RedeliveryIsHarmless(log: seq<Op>, i: nat)
    requires i < |log|
    ensures Execute(Replay(log), log[i]) == Replay(log)
  {
    if log[i].opType != OpGet {
      DuplicateMeaning(log, log[i].clientId, log[i].seqId);
      assert Writes(log[i], log[i].clientId);
    }
  }

  // ----- replicas

  datatype Snapshot = NoSnapshot | Snapshot(store: Store)

  /** A message on `applyCh`. */
  datatype ApplyMsg =
    | CommandMsg(index: nat, op: Op)
    | SnapshotMsg(snapshot: Snapshot, index: nat)
    | InvalidMsg

  datatype Replica = Replica(store: Store, lastApplied: nat)

  /** `restoreFromSnapshot`. */
  function Restored(store: Store, snapshot: Snapshot): Store {
    if snapshot.NoSnapshot? then store else snapshot.store
  }

  /** One round of `applyTask`. */
  function Receive(r: Replica, m: ApplyMsg): Replica {
    match m
    case CommandMsg(index, op) =>
      if index <= r.lastApplied then r else Replica(Execute(r.store, op), index)
    case SnapshotMsg(snapshot, index) => Replica(Restored(r.store, snapshot), index)
    case InvalidMsg => r
  }

  /** What a message does to a replica: a command with an index that is not stale moves it to that index
      and changes at most the map and its client's entry in the table; a snapshot moves it to its index
      and replaces map and table, unless it is empty; anything else does nothing. */
  ghost predicate Took(r: Replica, r': Replica, m: ApplyMsg) {
    match m
    case CommandMsg(index, op) =>
      if index <= r.lastApplied then r' == r else
        && r'.lastApplied == index
        && (op.opType == OpGet ==> r'.store == r.store)
        && (op.opType != OpGet && op.clientId in r.store.dup && op.seqId <= r.store.dup[op.clientId].seqId ==>
              r'.store == r.store)
        && (op.opType != OpGet && !(op.clientId in r.store.dup && op.seqId <= r.store.dup[op.clientId].seqId) ==>
              && op.clientId in r'.store.dup && r'.store.dup[op.clientId] == LastOperationInfo(op.seqId, OpReply("", OK))
              && (forall c | c != op.clientId :: c in r'.store.dup <==> c in r.store.dup)
              && (forall c | c != op.clientId && c in r.store.dup :: r'.store.dup[c] == r.store.dup[c])
              && Wrote(r.store.kv, r'.store.kv, op))
    case SnapshotMsg(snapshot, index) =>
      r'.lastApplied == index && r'.store == if snapshot.NoSnapshot? then r.store else snapshot.store
    case InvalidMsg => r' == r
  }

  /** A Put sets its key, an Append continues it, from nothing if it is missing; no other key changes. */
  ghost predicate Wrote(kv: KV, kv': KV, op: Op) {
    && op.key in kv'
    && (op.opType == OpPut ==> kv'[op.key] == op.value)
    && (op.opType == OpAppend ==> kv'[op.key] == (if op.key in kv then kv[op.key] else "") + op.value)
    && (forall k | k != op.key :: k in kv' <==> k in kv)
    && (forall k | k != op.key && k in kv :: kv'[k] == kv[k])
  }

  lemma EffectMeaning(kv: KV, op: Op)
    ensures op.opType == OpGet ==> Effect(kv, op) == kv
    ensures op.opType != OpGet ==> Wrote(kv, Effect(kv, op), op)
  {
  }

  lemma ReceiveMeaning(r: Replica, m: ApplyMsg)
    ensures Took(r, Receive(r, m), m)
  {
    if m.CommandMsg? {
      EffectMeaning(r.store.kv, m.op);
    }
  }

  /** All the messages of a channel, in order. */
  function ReceiveAll(r: Replica, messages: seq<ApplyMsg>): Replica {
    if messages == [] then r else Receive(ReceiveAll(r, messages[..|messages| - 1]), messages[|messages| - 1])
  }

  /** The replica before each message and after the last. */
  ghost predicate TookAll(messages: seq<ApplyMsg>, rs: seq<Replica>) {
    |rs| == |messages| + 1 && forall k | 0 <= k < |messages| :: Took(rs[k], rs[k + 1], messages[k])
  }

  lemma {:induction false} ReceiveAllMeaning(r: Replica, messages: seq<ApplyMsg>) returns (rs: seq<Replica>)
    ensures |rs| == |messages| + 1 && TookAll(messages, rs) && rs[0] == r && rs[|messages|] == ReceiveAll(r, messages)
    ensures forall k | 0 <= k <= |messages| :: rs[k] == ReceiveAll(r, messages[..k])
  {
    hide Took, Receive;
    if messages == [] {
      rs := [r];
    } else {
      var front, n := messages[..|messages| - 1], |messages| - 1;
      var before := ReceiveAllMeaning(r, front);
      rs := before + [ReceiveAll(r, messages)];
      ReceiveMeaning(before[n], messages[n]);
      forall k | 0 <= k <= |messages|
        ensures rs[k] == ReceiveAll(r, messages[..k])
      {
        if k <= n {
          assert front[..k] == messages[..k];
        } else {
          assert messages[..k] == messages;
        }
      }
    }
  }

  /** `StartKVServer`: what the persister's snapshot holds, and an index of 0. */
  function Started(snapshot: Snapshot): Replica {
    Replica(Restored(Empty(), snapshot), 0)
  }

  /** Indexes the replica has passed change nothing, however many are delivered. */
  lemma {:induction false} StaleChangesNothing(r: Replica, messages: seq<ApplyMsg>)
    requires forall k | 0 <= k < |messages| :: messages[k].CommandMsg? && messages[k].index <= r.lastApplied
    ensures ReceiveAll(r, messages) == r
  {
    if messages != [] {
      StaleChangesNothing(r, messages[..|messages| - 1]);
    }
  }

  /** A replica of the service, and how far into the log its Raft is. */
  datatype Node = Node(replica: Replica, point: nat)

  /** All replicas, and the snapshots they have taken so far with the index they cover. */
  datatype Service = Service(nodes: seq<Node>, taken: set<(nat, Snapshot)>)

  datatype Event =
    | Command(i: nat, index: nat, takeSnapshot: bool)
    | Install(i: nat, index: nat, snapshot: Snapshot)
    | Reboot(i: nat, index: nat, snapshot: Snapshot)

  /** Raft delivers the committed log contiguously from the last point, or indexes already seen;
      snapshots are installed and read back as some replica took them; without one the server
      starts from nothing. */
  predicate CanHappen(log: seq<Op>, v: Service, e: Event) {
    && e.i < |v.nodes|
    && match e
       case Command(i, index, _) =>
         1 <= index <= |log| && (index <= v.nodes[i].replica.lastApplied || index == v.nodes[i].point + 1)
       case Install(_, index, snapshot) => (index, snapshot) in v.taken
       case Reboot(_, index, snapshot) => (index, snapshot) in v.taken || (index == 0 && snapshot == NoSnapshot)
  }

  function After(log: seq<Op>, v: Service, e: Event): Service
    requires CanHappen(log, v, e)
  {
    var node := v.nodes[e.i];
    match e
    case Command(i, index, takeSnapshot) =>
      var r := Receive(node.replica, CommandMsg(index, log[index - 1]));
      var stale := index <= node.replica.lastApplied;
      Service(v.nodes[i := Node(r, if stale then node.point else index)],
              if takeSnapshot && !stale then v.taken + {(index, Snapshot(r.store))} else v.taken)
    case Install(i, index, snapshot) =>
      v.(nodes := v.nodes[i := Node(Receive(node.replica, SnapshotMsg(snapshot, index)), index)])
    case Reboot(i, index, snapshot) =>
      v.(nodes := v.nodes[i := Node(Started(snapshot), index)])
  }

  ghost predicate Serving(log: seq<Op>, node: Node) {
    node.replica.lastApplied <= node.point <= |log| && node.replica.store == Replay(log[..node.point])
  }

  ghost predicate ServiceInv(log: seq<Op>, v: Service) {
    && (forall i | 0 <= i < |v.nodes| :: Serving(log, v.nodes[i]))
    && (forall t | t in v.taken :: t.0 <= |log| && t.1 == Snapshot(Replay(log[..t.0])))
  }

  lemma EventKeeps(log: seq<Op>, v: Service, e: Event)
    requires ServiceInv(log, v) && CanHappen(log, v, e)
    ensures ServiceInv(log, After(log, v, e))
  {
    assert Serving(log, v.nodes[e.i]);
    assert Replay(log[..0]) == Empty();
    match e
    case Command(i, index, takeSnapshot) =>
      assert log[..index][..index - 1] == log[..index - 1];
    case Install(i, index, snapshot) =>
    case Reboot(i, index, snapshot) =>
  }

  /** A run of `n` replicas that all start from nothing. */
  ghost predicate IsServiceRun(log: seq<Op>, n: nat, run: seq<Service>, events: seq<Event>) {
    && |run| == |events| + 1
    && run[0] == Service(seq(n, _ => Node(Started(NoSnapshot), 0)), {})
    && forall k | 0 <= k < |events| :: CanHappen(log, run[k], events[k]) && run[k + 1] == After(log, run[k], events[k])
  }

  lemma {:induction false} RunKeeps(log: seq<Op>, n: nat, run: seq<Service>, events: seq<Event>, k: nat)
    requires IsServiceRun(log, n, run, events) && k < |run|
    ensures ServiceInv(log, run[k])
  {
    hide ServiceInv, CanHappen, After;
    if k == 0 {
      StartInv(log, n);
    } else {
      RunKeeps(log, n, run, events, k - 1);
      EventKeeps(log, run[k - 1], events[k - 1]);
    }
  }

  lemma StartInv(log: seq<Op>, n: nat)
    ensures ServiceInv(log, Service(seq(n, _ => Node(Started(NoSnapshot), 0)), {}))
  {
    assert log[..0] == [];
  }

  /** Whatever commands, retries, snapshots and restarts a replica went through, it holds the replay
      of the committed prefix it has reached, and so does every snapshot taken anywhere; hence
      replicas at the same point are equal. */
  lemma ReplicasReplay(log: seq<Op>, n: nat, run: seq<Service>, events: seq<Event>, k: nat, i: nat, j: nat)
    requires IsServiceRun(log, n, run, events) && k < |run| && i < |run[k].nodes| && j < |run[k].nodes|
    ensures var x, y := run[k].nodes[i], run[k].nodes[j];
            && x.point <= |log| && x.replica.store == Replay(log[..x.point])
            && (x.point == y.point ==> x.replica.store == y.replica.store)
            && (ClientsInOrder(log[..x.point]) ==> x.replica.store.kv == Plain(FirstOps(log[..x.point])))
            && forall t | t in run[k].taken :: t.0 <= |log| && t.1 == Snapshot(Replay(log[..t.0]))
  {
    RunKeeps(log, n, run, events, k);
    assert Serving(log, run[k].nodes[i]) && Serving(log, run[k].nodes[j]);
    ExactlyOnce(log[..run[k].nodes[i].point]);
  }
}
