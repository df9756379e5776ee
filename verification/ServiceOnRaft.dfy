/** The key/value service on top of Raft, as one system: Raft's steps, the channel on which each
    server hands committed entries and installed snapshots to its service, the service consuming it
    and taking snapshots, and crashes that lose everything but what was persisted. */
module ServiceOnRaft {
  import opened Quorums
  import opened RaftServer
  import opened RaftCluster
  import opened RaftInvariant
  import opened RaftSteps
  import opened RaftRuns
  import opened RaftCompleteness
  import opened RaftSafety
  import opened RaftApplied
  import opened RaftDeliveries
  import K = KvReplay

  type Decoder = Command -> K.Op

  /** The service beside one server: its replica and how far into the log it is, the snapshot in
      the persister, and the messages it has not consumed yet. */
  datatype Host = Host(node: K.Node, image: K.Snapshot, queue: seq<K.ApplyMsg>)

  /** `images` are the snapshots that InstallSnapshot requests carry. */
  datatype System = System(cluster: Cluster, hosts: seq<Host>, images: map<InstallSnapshotArgs, K.Snapshot>)

  datatype Move =
    | Protocol(step: Step)
    | Consume(i: int, large: bool)

  function NewHost(): Host {
    Host(K.Node(K.Started(K.NoSnapshot), 0), K.NoSnapshot, [])
  }

  function NewSystem(n: nat): System {
    System(Init(n), seq(n, _ => NewHost()), map[])
  }

  /** What the ticker sends for an entry. */
  function MessageFor(k: nat, e: LogEntry, decode: Decoder): K.ApplyMsg {
    if e.commandValid then K.CommandMsg(k, decode(e.command)) else K.InvalidMsg
  }

  function MessagesFor(log: seq<LogEntry>, low: nat, high: nat, decode: Decoder): seq<K.ApplyMsg>
    requires low <= high < |log|
  {
    if low == high then [] else MessagesFor(log, low, high - 1, decode) + [MessageFor(high, log[high], decode)]
  }

  /** The service starts again from what was persisted. */
  function Restarted(host: Host, snapIdx: nat): Host {
    Host(K.Node(K.Started(host.image), snapIdx), host.image, [])
  }

  /** A Raft step, as far as the service of the acting server notices it. */
  function HostAfter(v: System, step: Step, decode: Decoder): Host
    requires Enabled(v.cluster, step) && |v.hosts| == |v.cluster.servers|
  {
    var s, host := v.cluster.servers[step.i], v.hosts[step.i];
    match step
    case ApplyCommitted(_) =>
      if ApplyFrom(s) < ApplyTo(s) < |s.log|
      then host.(queue := host.queue + MessagesFor(s.log, ApplyFrom(s), ApplyTo(s), decode)) else host
    case ApplySnapshot(_) => host.(queue := host.queue + [K.SnapshotMsg(host.image, s.snapIdx)])
    case ReceiveInstallRequest(_, install) =>
      if Replaces(s, install) && install in v.images then host.(image := v.images[install]) else host
    case CrashRestart(_) => Restarted(host, s.snapIdx)
    case _ => host
  }

  function ImagesAfter(v: System, step: Step): map<InstallSnapshotArgs, K.Snapshot>
    requires Enabled(v.cluster, step) && |v.hosts| == |v.cluster.servers|
  {
    if step.Replicate? then v.images[InstallArgs(v.cluster.servers[step.i], step.i) := v.hosts[step.i].image]
    else v.images
  }

  /** The replica after the next message. */
  function NodeAfter(node: K.Node, m: K.ApplyMsg): K.Node {
    K.Node(K.Receive(node.replica, m),
           match m
           case CommandMsg(index, _) => if index <= node.replica.lastApplied then node.point else index
           case SnapshotMsg(_, index) => index
           case InvalidMsg => node.point)
  }

  /** The service calls `Snapshot` after a command, while it still holds its own lock. */
  predicate Snapshots(host: Host, large: bool) {
    large && host.queue != [] && host.queue[0].CommandMsg? && host.queue[0].index > host.node.replica.lastApplied
  }

  predicate CanMove(v: System, move: Move) {
    && |v.hosts| == |v.cluster.servers|
    && match move
       case Protocol(step) => Enabled(v.cluster, step) && InOrder(v.cluster, step) && !step.ServiceSnapshot?
       case Consume(i, large) =>
         && 0 <= i < |v.hosts| && v.hosts[i].queue != []
         && (Snapshots(v.hosts[i], large) ==> Enabled(v.cluster, ServiceSnapshot(i, v.hosts[i].queue[0].index)))
  }

  function HostConsumed(v: System, i: int, large: bool): Host
    requires CanMove(v, Consume(i, large))
  {
    var s, host := v.cluster.servers[i], v.hosts[i];
    var node, rest := NodeAfter(host.node, host.queue[0]), host.queue[1..];
    if !Snapshots(host, large) then Host(node, host.image, rest)
    else
      var index := host.queue[0].index;
      if SnapshotPanics(s, index) then Restarted(host, s.snapIdx)
      else if s.snapIdx < index <= s.commitIndex then Host(node, K.Snapshot(node.replica.store), rest)
      else Host(node, host.image, rest)
  }

  function After(v: System, move: Move, decode: Decoder): System
    requires CanMove(v, move)
  {
    match move
    case Protocol(step) =>
      System(Next(v.cluster, step), v.hosts[step.i := HostAfter(v, step, decode)], ImagesAfter(v, step))
    case Consume(i, large) =>
      System(if Snapshots(v.hosts[i], large) then Next(v.cluster, ServiceSnapshot(i, v.hosts[i].queue[0].index)) else v.cluster,
             v.hosts[i := HostConsumed(v, i, large)], v.images)
  }

  // ----- what a host holds

  /** The operations of a log up to an index. */
  function Operations(log: seq<LogEntry>, k: nat, decode: Decoder): seq<K.Op>
    requires k < |log|
  {
    seq(k, j requires 0 <= j < k => decode(log[j + 1].command))
  }

  function Built(log: seq<LogEntry>, k: nat, decode: Decoder): K.Store
    requires k < |log|
  {
    K.Replay(Operations(log, k, decode))
  }

  lemma BuiltNext(log: seq<LogEntry>, k: nat, decode: Decoder)
    requires k + 1 < |log|
    ensures Built(log, k + 1, decode) == K.Execute(Built(log, k, decode), decode(log[k + 1].command))
  {
    var ops := Operations(log, k + 1, decode);
    assert ops[..k] == Operations(log, k, decode);
  }

  lemma BuiltSame(a: seq<LogEntry>, b: seq<LogEntry>, k: nat, m: nat, decode: Decoder)
    requires SameUpTo(a, b, m) && k <= m
    ensures Built(a, k, decode) == Built(b, k, decode)
  {
    assert Operations(a, k, decode) == Operations(b, k, decode);
  }

  /** The snapshot is of the state at an index, or there is none yet. */
  ghost predicate ImageOf(image: K.Snapshot, log: seq<LogEntry>, k: nat, decode: Decoder) {
    k < |log| && image == if k == 0 then K.NoSnapshot else K.Snapshot(Built(log, k, decode))
  }

  /** The messages lead, one after the other, from `point` to `end`. */
  ghost predicate Leads(c: Cluster, x: int, log: seq<LogEntry>, queue: seq<K.ApplyMsg>, point: nat, end: nat, decode: Decoder) {
    && point <= end < |log|
    && if queue == [] then point == end else
         match queue[0]
         case CommandMsg(k, op) =>
           && k == point + 1 && k < |log| && op == decode(log[k].command) && Handed(c.hist, x, k)
           && Leads(c, x, log, queue[1..], k, end, decode)
         case SnapshotMsg(image, k) =>
           k > 0 && point <= k && ImageOf(image, log, k, decode) && Leads(c, x, log, queue[1..], k, end, decode)
         case InvalidMsg => false
  }

  ghost predicate HostInv(c: Cluster, x: int, host: Host, decode: Decoder)
    requires 0 <= x < |c.servers|
  {
    var s := c.servers[x];
    && Leads(c, x, s.log, host.queue, host.node.point, s.lastApplied, decode)
    && host.node.replica.lastApplied <= host.node.point
    && host.node.replica.store == Built(s.log, host.node.point, decode)
    && ImageOf(host.image, s.log, s.snapIdx, decode)
    && (s.lastApplied == 0 || Firm(c.hist, s, s.lastApplied))
    && (if s.snapPending then s.lastApplied <= s.snapIdx && s.snapIdx > 0 else s.snapIdx <= s.lastApplied)
  }

  ghost predicate ImageInv(v: System, decode: Decoder) {
    forall to, install | InstallRequest(to, install) in v.cluster.net ::
      install in v.images && ImageOf(v.images[install], install.snapshot, install.lastIncludedIndex, decode)
  }

  ghost predicate RaftInv(c: Cluster) {
    Inv(c) && HoldInv(c) && CommitInv(c) && AppliedInv(c) && CommandInv(c.hist)
  }

  ghost predicate SystemInv(v: System, decode: Decoder) {
    && RaftInv(v.cluster) && |v.hosts| == |v.cluster.servers|
    && (forall x | 0 <= x < |v.hosts| :: HostInv(v.cluster, x, v.hosts[x], decode))
    && ImageInv(v, decode)
  }

  // ----- the queue

  /** A log that agrees up to the end, and a record that grew, change nothing. */
  lemma {:induction false} LeadsSame(c: Cluster, c': Cluster, x: int, log: seq<LogEntry>, log': seq<LogEntry>,
                                     queue: seq<K.ApplyMsg>, point: nat, end: nat, decode: Decoder)
    requires Leads(c, x, log, queue, point, end, decode) && SameUpTo(log, log', end) && c.hist.applied <= c'.hist.applied
    ensures Leads(c', x, log', queue, point, end, decode)
    decreases |queue|
  {
    if queue != [] {
      var k := queue[0].index;
      LeadsBound(c, x, log, queue[1..], k, end, decode);
      LeadsSame(c, c', x, log, log', queue[1..], k, end, decode);
      BuiltSame(log, log', k, end, decode);
    }
  }

  lemma LeadsBound(c: Cluster, x: int, log: seq<LogEntry>, queue: seq<K.ApplyMsg>, point: nat, end: nat, decode: Decoder)
    requires Leads(c, x, log, queue, point, end, decode)
    ensures point <= end < |log|
  {
  }

  lemma {:induction false} LeadsOn(c: Cluster, x: int, log: seq<LogEntry>, queue: seq<K.ApplyMsg>, more: seq<K.ApplyMsg>,
                                   point: nat, mid: nat, end: nat, decode: Decoder)
    requires Leads(c, x, log, queue, point, mid, decode) && Leads(c, x, log, more, mid, end, decode)
    ensures Leads(c, x, log, queue + more, point, end, decode)
    decreases |queue|
  {
    if queue == [] {
      assert queue + more == more;
    } else {
      assert (queue + more)[1..] == queue[1..] + more;
      LeadsOn(c, x, log, queue[1..], more, queue[0].index, mid, end, decode);
      LeadsBound(c, x, log, more, mid, end, decode);
    }
  }

  /** One round of the ticker leads from the last index applied to the new one. */
  lemma {:induction false} RoundLeads(c: Cluster, x: int, log: seq<LogEntry>, low: nat, high: nat, decode: Decoder)
    requires low <= high < |log| && AllCommands(log) && forall k: nat | low < k <= high :: Handed(c.hist, x, k)
    ensures Leads(c, x, log, MessagesFor(log, low, high, decode), low, high, decode)
    decreases high
  {
    if low < high {
      RoundLeads(c, x, log, low, high - 1, decode);
      var last := [MessageFor(high, log[high], decode)];
      assert last[1..] == [];
      assert Leads(c, x, log, last, high - 1, high, decode);
      LeadsOn(c, x, log, MessagesFor(log, low, high - 1, decode), last, low, high - 1, high, decode);
    }
  }

  // ----- the servers

  lemma RaftStep(c: Cluster, step: Step)
    requires RaftInv(c) && Enabled(c, step) && InOrder(c, step)
    ensures RaftInv(Next(c, step)) && |Next(c, step).servers| == |c.servers|
    ensures Prolongs(c.hist, Next(c, step).hist) && c.hist.applied <= Next(c, step).hist.applied
  {
    hide Inv, HoldInv, CommitInv, AppliedInv, CommandInv, NextServer, NewMessages, NextHistory, InOrder, Prolongs;
    StepKeeps(c, step);
    CommitStep(c, step);
    AppliedStep(c, step);
    CommandStep(c, step);
    StepProlongs(c, step);
    RecordGrows(c, step);
  }

  /** Nothing, or everything up to `k`, is committed and in the log. */
  ghost predicate FirmTo(h: History, s: Server, k: nat) {
    k == 0 || Firm(h, s, k)
  }

  lemma SnapshotFirm(c: Cluster, x: int)
    requires RaftInv(c) && 0 <= x < |c.servers|
    ensures FirmTo(c.hist, c.servers[x], c.servers[x].snapIdx) && c.servers[x].snapIdx < |c.servers[x].log|
  {
    hide LogOk, HistoryInv, Covered, HoldInv, AppliedInv, CommandInv, Committed, AppliedOk;
    assert ServerInv(|c.servers|, c.hist, x, c.servers[x]) && CommitOk(c.hist, c.servers[x]);
  }

  lemma LogStarts(c: Cluster, x: int)
    requires Inv(c) && 0 <= x < |c.servers|
    ensures LogOk(c.hist.leaderLog, c.servers[x].log)
  {
    assert ServerInv(|c.servers|, c.hist, x, c.servers[x]);
  }

  /** Every server's log stays as it was up to whatever is firm. */
  lemma LogStays(c: Cluster, step: Step, x: int, k: nat)
    requires RaftInv(c) && Enabled(c, step) && InOrder(c, step) && 0 <= x < |c.servers| && FirmTo(c.hist, c.servers[x], k)
    ensures var c' := Next(c, step);
            && |c'.servers| == |c.servers| && SameUpTo(c.servers[x].log, c'.servers[x].log, k)
            && FirmTo(c'.hist, c'.servers[x], k)
  {
    hide HoldInv, CommitInv, OwnTerm, NextServer, NewMessages, NextHistory, InOrder, LogOk, Inv, CommandInv, Covered, Prolongs, SameUpTo, TermsUpTo;
    var c' := Next(c, step);
    RaftStep(c, step);
    if k == 0 {
      LogStarts(c, x);
      LogStarts(c', x);
      BothStart(c.hist.leaderLog, c'.hist.leaderLog, c.servers[x].log, c'.servers[x].log);
    } else if x == step.i {
      FirmStays(c, step, k);
      StillFirm(c.hist, c'.hist, c.servers[x], c'.servers[x], k);
    } else {
      SameItself(c.servers[x].log, k);
      StillFirm(c.hist, c'.hist, c.servers[x], c'.servers[x], k);
    }
  }

  // ----- the hosts

  /** A host is none the worse when its server's indexes stay and its log does up to them. */
  lemma HostSame(c: Cluster, c': Cluster, x: int, host: Host, decode: Decoder)
    requires 0 <= x < |c.servers| == |c'.servers| && HostInv(c, x, host, decode) && c.hist.applied <= c'.hist.applied
    requires var s, s' := c.servers[x], c'.servers[x];
             && s'.lastApplied == s.lastApplied && s'.snapIdx == s.snapIdx && s'.snapPending == s.snapPending
             && SameUpTo(s.log, s'.log, s.lastApplied) && SameUpTo(s.log, s'.log, s.snapIdx)
             && FirmTo(c'.hist, s', s.lastApplied)
    ensures HostInv(c', x, host, decode)
  {
    hide Leads, Firm, SameUpTo;
    var s, s' := c.servers[x], c'.servers[x];
    LeadsSame(c, c', x, s.log, s'.log, host.queue, host.node.point, s.lastApplied, decode);
    LeadsBound(c, x, s.log, host.queue, host.node.point, s.lastApplied, decode);
    BuiltSame(s.log, s'.log, host.node.point, s.lastApplied, decode);
    ImageSame(host.image, s.log, s'.log, s.snapIdx, decode);
  }

  lemma ImageSame(image: K.Snapshot, a: seq<LogEntry>, b: seq<LogEntry>, k: nat, decode: Decoder)
    requires ImageOf(image, a, k, decode) && SameUpTo(a, b, k)
    ensures ImageOf(image, b, k, decode)
  {
    BuiltSame(a, b, k, k, decode);
  }

  /** The steps that a service does not notice. */
  ghost predicate Unnoticed(c: Cluster, step: Step)
    requires Enabled(c, step)
  {
    && !step.ApplyCommitted? && !step.ApplySnapshot? && !step.CrashRestart? && !step.ServiceSnapshot?
    && (step.ReceiveInstallRequest? ==> !Replaces(c.servers[step.i], step.install))
  }

  lemma IndexesStay(c: Cluster, step: Step)
    requires Enabled(c, step) && Unnoticed(c, step)
    ensures var s, s' := c.servers[step.i], NextServer(c, step);
            s'.lastApplied == s.lastApplied && s'.snapIdx == s.snapIdx && s'.snapPending == s.snapPending
  {
    hide MajorityIndex, MoreUpToDate, BackOff;
  }

  lemma UnnoticedHost(c: Cluster, step: Step, x: int, host: Host, decode: Decoder)
    requires RaftInv(c) && Enabled(c, step) && InOrder(c, step) && 0 <= x < |c.servers| && HostInv(c, x, host, decode)
    requires x != step.i || Unnoticed(c, step)
    ensures var c' := Next(c, step); |c'.servers| == |c.servers| && HostInv(c', x, host, decode)
  {
    hide RaftInv, HostInv, NextServer, NewMessages, NextHistory, InOrder, SameUpTo, Firm;
    RaftStep(c, step);
    SnapshotFirm(c, x);
    HostParts(c, x, host, decode);
    LogStays(c, step, x, c.servers[x].lastApplied);
    LogStays(c, step, x, c.servers[x].snapIdx);
    if x == step.i {
      IndexesStay(c, step);
    }
    HostSame(c, Next(c, step), x, host, decode);
  }

  lemma HostParts(c: Cluster, x: int, host: Host, decode: Decoder)
    requires 0 <= x < |c.servers| && HostInv(c, x, host, decode)
    ensures FirmTo(c.hist, c.servers[x], c.servers[x].lastApplied)
    ensures host.node.point <= c.servers[x].lastApplied < |c.servers[x].log|
  {
    hide Firm;
    LeadsBound(c, x, c.servers[x].log, host.queue, host.node.point, c.servers[x].lastApplied, decode);
  }

  /** A server that crashes comes back with its snapshot, and so does its service. */
  lemma RestartedHost(c: Cluster, c': Cluster, x: int, host: Host, decode: Decoder)
    requires 0 <= x < |c.servers| == |c'.servers| && HostInv(c, x, host, decode)
    requires var s, s' := c.servers[x], c'.servers[x];
             && s'.log == s.log && s'.snapIdx == s.snapIdx == s'.lastApplied && !s'.snapPending
             && FirmTo(c'.hist, s', s'.snapIdx)
    ensures HostInv(c', x, Restarted(host, c.servers[x].snapIdx), decode)
  {
    hide Firm;
    var s' := c'.servers[x];
    assert Operations(s'.log, 0, decode) == [];
    assert Leads(c', x, s'.log, [], s'.snapIdx, s'.snapIdx, decode);
  }

  lemma CrashHost(v: System, step: Step, decode: Decoder)
    requires SystemInv(v, decode) && Enabled(v.cluster, step) && InOrder(v.cluster, step) && step.CrashRestart?
    ensures var c' := Next(v.cluster, step);
            |c'.servers| == |v.hosts| && HostInv(c', step.i, HostAfter(v, step, decode), decode)
  {
    hide HostInv, Firm, RaftInv, InOrder, SameUpTo;
    var c, x := v.cluster, step.i;
    RaftStep(c, step);
    RestartKeeps(c, x);
    SnapshotFirm(c, x);
    LogStays(c, step, x, c.servers[x].snapIdx);
    RestartedHost(c, Next(c, step), x, v.hosts[x], decode);
  }

  lemma RestartKeeps(c: Cluster, x: int)
    requires RaftInv(c) && 0 <= x < |c.servers|
    ensures var s := c.servers[x]; var s' := Restart(s, |c.servers|);
            s'.log == s.log && s'.snapIdx == s.snapIdx == s'.lastApplied && !s'.snapPending
  {
    hide LogOk, HistoryInv, HoldInv, CommitInv, AppliedInv, CommandInv;
    assert ServerInv(|c.servers|, c.hist, x, c.servers[x]);
  }

  /** A round of the ticker. */
  lemma AppliedHost(v: System, step: Step, decode: Decoder)
    requires SystemInv(v, decode) && Enabled(v.cluster, step) && InOrder(v.cluster, step) && step.ApplyCommitted?
    ensures var c' := Next(v.cluster, step);
            |c'.servers| == |v.hosts| && HostInv(c', step.i, HostAfter(v, step, decode), decode)
  {
    hide RaftInv, InOrder, Leads, Firm, NextHistory, NewMessages, ImageInv;
    var c, x := v.cluster, step.i;
    var c', s, host := Next(c, step), c.servers[x], v.hosts[x];
    assert HostInv(c, x, host, decode);
    RaftStep(c, step);
    HostParts(c, x, host, decode);
    RoundFirm(c, step);
    SameItself(s.log, s.lastApplied);
    LeadsSame(c, c', x, s.log, s.log, host.queue, host.node.point, s.lastApplied, decode);
    if ApplyTo(s) > ApplyFrom(s) {
      RoundLeads(c', x, s.log, s.lastApplied, ApplyTo(s), decode);
      LeadsOn(c', x, s.log, host.queue, MessagesFor(s.log, s.lastApplied, ApplyTo(s), decode),
              host.node.point, s.lastApplied, ApplyTo(s), decode);
    }
  }

  lemma RoundFirm(c: Cluster, step: Step)
    requires RaftInv(c) && Enabled(c, step) && InOrder(c, step) && step.ApplyCommitted?
    requires FirmTo(c.hist, c.servers[step.i], c.servers[step.i].lastApplied)
    requires c.servers[step.i].snapIdx <= c.servers[step.i].lastApplied
    ensures var s, s', c' := c.servers[step.i], NextServer(c, step), Next(c, step);
            && ApplyFrom(s) == s.lastApplied && s'.log == s.log && s'.snapIdx == s.snapIdx && s'.snapPending == s.snapPending
            && FirmTo(c'.hist, s', s'.lastApplied) && AllCommands(s.log)
            && forall k: nat | ApplyFrom(s) < k <= ApplyTo(s) :: Handed(c'.hist, step.i, k)
  {
    hide Inv, HoldInv, AppliedInv, CommandInv, Covered, Committed, AppliedOk, LogOk, AllCommands, InOrder, Prolongs;
    var s, s', c' := c.servers[step.i], NextServer(c, step), Next(c, step);
    RaftStep(c, step);
    LogStarts(c, step.i);
    SoundLogCommands(c.hist, s.log);
    assert CommitOk(c.hist, s);
    forall k: nat | ApplyFrom(s) < k <= ApplyTo(s)
      ensures Handed(c'.hist, step.i, k)
    {
      assert (step.i, k, s.log[k]) in Deliveries(s, step.i);
    }
    if ApplyTo(s) > ApplyFrom(s) {
      CoveredLess(c.hist, s.term, s.log, s.commitIndex, s.term, ApplyTo(s));
      assert Firm(c.hist, s, ApplyTo(s));
      SameItself(s.log, ApplyTo(s));
      StillFirm(c.hist, c'.hist, s, s', ApplyTo(s));
    } else if s.lastApplied > 0 {
      SameItself(s.log, s.lastApplied);
      StillFirm(c.hist, c'.hist, s, s', s.lastApplied);
    }
  }

  /** The installed snapshot is handed over. */
  lemma SnapshotHost(v: System, step: Step, decode: Decoder)
    requires SystemInv(v, decode) && Enabled(v.cluster, step) && InOrder(v.cluster, step) && step.ApplySnapshot?
    ensures var c' := Next(v.cluster, step);
            |c'.servers| == |v.hosts| && HostInv(c', step.i, HostAfter(v, step, decode), decode)
  {
    hide RaftInv, InOrder, Firm, NewMessages, ImageInv;
    var c, x := v.cluster, step.i;
    var c', s, host := Next(c, step), c.servers[x], v.hosts[x];
    assert HostInv(c, x, host, decode);
    RaftStep(c, step);
    SnapshotFirm(c, x);
    LogStays(c, step, x, s.snapIdx);
    LeadsBound(c, x, s.log, host.queue, host.node.point, s.lastApplied, decode);
    SameItself(s.log, s.lastApplied);
    LeadsSame(c, c', x, s.log, s.log, host.queue, host.node.point, s.lastApplied, decode);
    var last := [K.SnapshotMsg(host.image, s.snapIdx)];
    assert last[1..] == [];
    assert Leads(c', x, s.log, last, s.lastApplied, s.snapIdx, decode);
    LeadsOn(c', x, s.log, host.queue, last, host.node.point, s.lastApplied, s.snapIdx, decode);
  }

  /** A snapshot from the leader replaces the log and the persisted snapshot. */
  lemma InstalledHost(v: System, step: Step, decode: Decoder)
    requires SystemInv(v, decode) && Enabled(v.cluster, step) && InOrder(v.cluster, step)
    requires step.ReceiveInstallRequest? && Replaces(v.cluster.servers[step.i], step.install)
    ensures var c' := Next(v.cluster, step);
            |c'.servers| == |v.hosts| && HostInv(c', step.i, HostAfter(v, step, decode), decode)
  {
    hide RaftInv, Firm, NewMessages, NextHistory, Leads, SameUpTo;
    var c, x := v.cluster, step.i;
    var c', s, host := Next(c, step), c.servers[x], v.hosts[x];
    assert HostInv(c, x, host, decode) && InstallRequest(x, step.install) in c.net;
    RaftStep(c, step);
    HostParts(c, x, host, decode);
    LogStays(c, step, x, s.lastApplied);
    var s' := c'.servers[x];
    assert s'.log == step.install.snapshot && s'.snapIdx == step.install.lastIncludedIndex;
    LeadsSame(c, c', x, s.log, s'.log, host.queue, host.node.point, s.lastApplied, decode);
    BuiltSame(s.log, s'.log, host.node.point, s.lastApplied, decode);
  }

  // ----- the service's own moves

  /** The next message brings the replica one message further. */
  lemma ConsumedHost(c: Cluster, x: int, host: Host, decode: Decoder)
    requires 0 <= x < |c.servers| && HostInv(c, x, host, decode) && host.queue != []
    ensures HostInv(c, x, Host(NodeAfter(host.node, host.queue[0]), host.image, host.queue[1..]), decode)
  {
    hide Firm;
    var s, node, m := c.servers[x], host.node, host.queue[0];
    LeadsBound(c, x, s.log, host.queue[1..], m.index, s.lastApplied, decode);
    if m.CommandMsg? {
      BuiltNext(s.log, node.point, decode);
    }
  }

  /** A command waiting to be consumed was handed over; a snapshot at its index finds its entry. */
  lemma CanConsume(v: System, i: int, large: bool, decode: Decoder)
    requires SystemInv(v, decode) && 0 <= i < |v.hosts| && v.hosts[i].queue != []
    ensures CanMove(v, Consume(i, large))
    ensures v.hosts[i].queue[0].CommandMsg? ==> !SnapshotPanics(v.cluster.servers[i], v.hosts[i].queue[0].index)
  {
    hide Firm, HoldInv, CommitInv, Inv, CommandInv, OwnTerm;
    var c, host := v.cluster, v.hosts[i];
    assert HostInv(c, i, host, decode);
    SnapshotFirm(c, i);
    if host.queue[0].CommandMsg? {
      assert Handed(c.hist, i, host.queue[0].index);
      var d :| d in c.hist.applied && d.0 == i && d.1 == host.queue[0].index;
      assert AppliedHere(c, d.0, d.1, d.2);
      FirmIsHeld(c.hist, c.servers[i], d.1);
    }
  }

  /** Taking a snapshot of the state that the command just consumed left. */
  lemma SnapshottedHost(c: Cluster, x: int, host: Host, index: nat, decode: Decoder)
    requires RaftInv(c) && 0 <= x < |c.servers| && HostInv(c, x, host, decode) && host.node.point == index
    requires Enabled(c, ServiceSnapshot(x, index)) && !SnapshotPanics(c.servers[x], index)
    ensures var s, c' := c.servers[x], Next(c, ServiceSnapshot(x, index));
            var image := if s.snapIdx < index <= s.commitIndex then K.Snapshot(host.node.replica.store) else host.image;
            |c'.servers| == |c.servers| && HostInv(c', x, host.(image := image), decode)
  {
    hide RaftInv, Firm, Leads;
    var step := ServiceSnapshot(x, index);
    var s, c' := c.servers[x], Next(c, step);
    RaftStep(c, step);
    HostParts(c, x, host, decode);
    LogStays(c, step, x, s.lastApplied);
    assert c'.servers[x].log == s.log;
    LeadsSame(c, c', x, s.log, s.log, host.queue, host.node.point, s.lastApplied, decode);
  }

  lemma ConsumeStep(v: System, i: int, large: bool, decode: Decoder)
    requires SystemInv(v, decode) && CanMove(v, Consume(i, large))
    ensures var v' := After(v, Consume(i, large), decode);
            |v'.cluster.servers| == |v.hosts| && HostInv(v'.cluster, i, v'.hosts[i], decode)
  {
    hide RaftInv, HostInv, Leads, NextServer, NextHistory, NewMessages, ImageInv;
    var c, host := v.cluster, v.hosts[i];
    CanConsume(v, i, large, decode);
    ConsumedHost(c, i, host, decode);
    if Snapshots(host, large) {
      var index := host.queue[0].index;
      SnapshottedHost(c, i, Host(NodeAfter(host.node, host.queue[0]), host.image, host.queue[1..]), index, decode);
    }
  }

  // ----- every move

  /** What the requests carry is what the leader had persisted. */
  lemma ImagesStep(v: System, step: Step, decode: Decoder)
    requires SystemInv(v, decode) && Enabled(v.cluster, step)
    ensures forall to, install | InstallRequest(to, install) in Next(v.cluster, step).net ::
              var images := ImagesAfter(v, step);
              install in images && ImageOf(images[install], install.snapshot, install.lastIncludedIndex, decode)
  {
    hide RaftInv, Leads, Firm, NextServer, NextHistory;
    var c, i := v.cluster, step.i;
    var s := c.servers[i];
    assert HostInv(c, i, v.hosts[i], decode);
    var mine := InstallArgs(s, i);
    assert SameUpTo(s.log, mine.snapshot, s.snapIdx);
    ImageSame(v.hosts[i].image, s.log, mine.snapshot, s.snapIdx, decode);
    forall to, install | InstallRequest(to, install) in Next(c, step).net
      ensures install in ImagesAfter(v, step)
      ensures ImageOf(ImagesAfter(v, step)[install], install.snapshot, install.lastIncludedIndex, decode)
    {
      if InstallRequest(to, install) !in c.net {
        NewInstall(c, step, to, install);
      }
    }
  }

  lemma NewInstall(c: Cluster, step: Step, to: int, install: InstallSnapshotArgs)
    requires Enabled(c, step) && InstallRequest(to, install) in NewMessages(c, step)
    ensures step.Replicate? && install == InstallArgs(c.servers[step.i], step.i)
  {
  }

  lemma NoticedHost(v: System, step: Step, decode: Decoder)
    requires SystemInv(v, decode) && CanMove(v, Protocol(step))
    ensures var c' := Next(v.cluster, step);
            |c'.servers| == |v.hosts| && HostInv(c', step.i, HostAfter(v, step, decode), decode)
  {
    hide RaftInv, HostInv, InOrder, NextServer, NextHistory, NewMessages, ImageInv;
    if step.ApplyCommitted? {
      AppliedHost(v, step, decode);
    } else if step.ApplySnapshot? {
      SnapshotHost(v, step, decode);
    } else if step.CrashRestart? {
      CrashHost(v, step, decode);
    } else if step.ReceiveInstallRequest? && Replaces(v.cluster.servers[step.i], step.install) {
      InstalledHost(v, step, decode);
    } else {
      UnnoticedHost(v.cluster, step, step.i, v.hosts[step.i], decode);
    }
  }

  lemma ProtocolStep(v: System, step: Step, decode: Decoder)
    requires SystemInv(v, decode) && CanMove(v, Protocol(step))
    ensures SystemInv(After(v, Protocol(step), decode), decode)
  {
    hide RaftInv, HostInv, InOrder, NextServer, NextHistory, NewMessages, ImageOf, HostAfter, ImagesAfter;
    var c, v' := v.cluster, After(v, Protocol(step), decode);
    RaftStep(c, step);
    NoticedHost(v, step, decode);
    ImagesStep(v, step, decode);
    forall x | 0 <= x < |v'.hosts|
      ensures HostInv(v'.cluster, x, v'.hosts[x], decode)
    {
      if x != step.i {
        UnnoticedHost(c, step, x, v.hosts[x], decode);
      }
    }
  }

  lemma ServiceStep(v: System, i: int, large: bool, decode: Decoder)
    requires SystemInv(v, decode) && CanMove(v, Consume(i, large))
    ensures SystemInv(After(v, Consume(i, large), decode), decode)
  {
    hide RaftInv, HostInv, NextServer, NextHistory, ImageOf, HostConsumed;
    var c, v' := v.cluster, After(v, Consume(i, large), decode);
    ConsumeStep(v, i, large, decode);
    if Snapshots(v.hosts[i], large) {
      var step := ServiceSnapshot(i, v.hosts[i].queue[0].index);
      RaftStep(c, step);
      forall x | 0 <= x < |v'.hosts| && x != i
        ensures HostInv(v'.cluster, x, v'.hosts[x], decode)
      {
        UnnoticedHost(c, step, x, v.hosts[x], decode);
      }
    }
  }
}
