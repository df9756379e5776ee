/** The log of a server that may have been cut by a snapshot: a boundary and the entries after it,
    behind a dummy that carries the boundary's term (src/raft/raft_log.go).  Every operation is
    compared with the same operation on a full log. */
module RaftLogs {
  import opened RaftServer

  /** What a `RaftLog` holds, and what `persist` writes (the snapshot itself is written apart). */
  datatype LogImage = LogImage(snapLastIdx: nat, snapLastTerm: nat, tailLog: seq<LogEntry>)

  function Boundary(term: nat): LogEntry {
    LogEntry(term, false, "")
  }

  /** The image stands for the full log: same length, same entries above the boundary, the same
      term at it, and a first tail entry that carries that term and nothing else. */
  ghost predicate Refines(image: LogImage, full: seq<LogEntry>) {
    && image.tailLog != [] && image.tailLog[0] == Boundary(image.snapLastTerm)
    && |full| == image.snapLastIdx + |image.tailLog|
    && full[image.snapLastIdx].term == image.snapLastTerm
    && image.tailLog[1..] == full[image.snapLastIdx + 1..]
  }

  // ----- runs of operations

  datatype LogOp =
    | Append(e: LogEntry)
    | AppendFrom(prevIdx: nat, entries: seq<LogEntry>)
    | DoSnapshot(index: nat)
    | InstallSnapshot(prefix: seq<LogEntry>)
    | Reboot

  /** An index in `[snapLastIdx, size())`; `idx` panics on any other. */
  predicate InRange(image: LogImage, index: nat) {
    image.snapLastIdx <= index < image.snapLastIdx + |image.tailLog|
  }

  predicate Allowed(image: LogImage, op: LogOp) {
    match op
    case Append(_) => true
    case AppendFrom(prevIdx, _) => InRange(image, prevIdx)
    case DoSnapshot(index) => InRange(image, index)
    case InstallSnapshot(prefix) => prefix != []
    case Reboot => true
  }

  /** The effect on what is held.  `InstallSnapshot` receives the last index and term of `prefix`. */
  function Perform(image: LogImage, op: LogOp): LogImage
    requires Allowed(image, op)
  {
    match op
    case Append(e) => image.(tailLog := image.tailLog + [e])
    case AppendFrom(prevIdx, entries) =>
      image.(tailLog := image.tailLog[..prevIdx - image.snapLastIdx + 1] + entries)
    case DoSnapshot(index) =>
      var at := index - image.snapLastIdx;
      var term := image.tailLog[at].term;
      LogImage(index, term, [Boundary(term)] + image.tailLog[at + 1..])
    case InstallSnapshot(prefix) =>
      LogImage(|prefix| - 1, LastTerm(prefix), [Boundary(LastTerm(prefix))])
    case Reboot => image
  }

  /** The effect on the full log: a snapshot of the service has none. */
  ghost function OnFull(full: seq<LogEntry>, op: LogOp): seq<LogEntry> {
    match op
    case Append(e) => full + [e]
    case AppendFrom(prevIdx, entries) => if prevIdx < |full| then full[..prevIdx + 1] + entries else full
    case DoSnapshot(_) => full
    case InstallSnapshot(prefix) => prefix
    case Reboot => full
  }

  /** Every operation agrees with its effect on the full log. */
  lemma PerformRefines(image: LogImage, full: seq<LogEntry>, op: LogOp)
    requires Refines(image, full) && Allowed(image, op)
    ensures Refines(Perform(image, op), OnFull(full, op))
  {
    TailMeaning(image, full);
    var image', full' := Perform(image, op), OnFull(full, op);
    match op
    case Append(e) =>
    case AppendFrom(prevIdx, entries) =>
      assert image'.tailLog[1..] == image.tailLog[1..prevIdx - image.snapLastIdx + 1] + entries;
      assert full'[image.snapLastIdx + 1..] == full[image.snapLastIdx + 1..prevIdx + 1] + entries;
    case DoSnapshot(index) =>
      assert image'.tailLog[1..] == image.tailLog[index - image.snapLastIdx + 1..];
    case InstallSnapshot(prefix) =>
    case Reboot =>
  }

  /** The entry the log holds at a logical index. */
  lemma TailMeaning(image: LogImage, full: seq<LogEntry>)
    requires Refines(image, full)
    ensures forall k | image.snapLastIdx <= k < |full| :: image.tailLog[k - image.snapLastIdx].term == full[k].term
    ensures forall k | image.snapLastIdx < k < |full| :: image.tailLog[k - image.snapLastIdx] == full[k]
  {
    forall k | image.snapLastIdx < k < |full|
      ensures image.tailLog[k - image.snapLastIdx] == full[k]
    {
      assert image.tailLog[1..][k - image.snapLastIdx - 1] == full[image.snapLastIdx + 1..][k - image.snapLastIdx - 1];
    }
  }

  /** The operations of `ops` are in range when their turn comes. */
  ghost predicate Runs(image: LogImage, ops: seq<LogOp>)
    decreases |ops|
  {
    ops != [] ==> Allowed(image, ops[0]) && Runs(Perform(image, ops[0]), ops[1..])
  }

  ghost function PerformAll(image: LogImage, ops: seq<LogOp>): LogImage
    requires Runs(image, ops)
    decreases |ops|
  {
    if ops == [] then image else PerformAll(Perform(image, ops[0]), ops[1..])
  }

  ghost function AllOnFull(full: seq<LogEntry>, ops: seq<LogOp>): seq<LogEntry>
    decreases |ops|
  {
    if ops == [] then full else AllOnFull(OnFull(full, ops[0]), ops[1..])
  }

  /** The same operations without the service's snapshots and the restarts. */
  ghost function Unsnapshotted(ops: seq<LogOp>): seq<LogOp> {
    if ops == [] then []
    else (if ops[0].DoSnapshot? || ops[0].Reboot? then [] else [ops[0]]) + Unsnapshotted(ops[1..])
  }

  /** Any interleaving of operations refines the full log that never took a snapshot of its own, and
      keeps the first tail entry's term equal to the boundary's. */
  lemma {:induction false} InterleavingsRefine(image: LogImage, full: seq<LogEntry>, ops: seq<LogOp>)
    requires Refines(image, full) && Runs(image, ops)
    ensures Refines(PerformAll(image, ops), AllOnFull(full, Unsnapshotted(ops)))
    ensures var r := PerformAll(image, ops); r.tailLog != [] && r.tailLog[0].term == r.snapLastTerm
    decreases |ops|
  {
    if ops != [] {
      PerformRefines(image, full, ops[0]);
      InterleavingsRefine(Perform(image, ops[0]), OnFull(full, ops[0]), ops[1..]);
      var rest := Unsnapshotted(ops[1..]);
      assert ([ops[0]] + rest)[1..] == rest && [] + rest == rest;
    }
  }

  // ----- the object

  class RaftLog {
    var snapLastIdx: nat
    var snapLastTerm: nat
    var snapshot: string
    var tailLog: seq<LogEntry>
    /** The log as it would be if nothing had been cut off. */
    ghost var full: seq<LogEntry>

    function Image(): LogImage
      reads this
    {
      LogImage(snapLastIdx, snapLastTerm, tailLog)
    }

    ghost predicate Valid()
      reads this
    {
      Refines(Image(), full)
    }

    lemma BoundaryInLog()
      requires Valid()
      ensures snapLastIdx < |full|
    {
    }

    /** `NewLog`; `prefix` is what the snapshot covers. */
    constructor (snapLastIdx: nat, snapLastTerm: nat, snapshot: string, entries: seq<LogEntry>, ghost prefix: seq<LogEntry>)
      requires |prefix| == snapLastIdx + 1 && prefix[snapLastIdx].term == snapLastTerm
      ensures Valid() && full == prefix + entries
      ensures this.snapLastIdx == snapLastIdx && this.snapshot == snapshot
    {
      this.snapLastIdx, this.snapLastTerm, this.snapshot := snapLastIdx, snapLastTerm, snapshot;
      tailLog := [Boundary(snapLastTerm)] + entries;
      full := prefix + entries;
    }

    /** `size`: the length of the full log. */
    function Size(): (r: nat)
      requires Valid()
      reads this
      ensures r == |full|
    {
      snapLastIdx + |tailLog|
    }

    /** `idx`: where the tail keeps a logical index; the source panics outside the range. */
    function Idx(logicIdx: nat): (r: nat)
      requires Valid() && snapLastIdx <= logicIdx < Size()
      reads this
      ensures r < |tailLog| && (r == 0 <==> logicIdx == snapLastIdx)
      ensures tailLog[r].term == full[logicIdx].term
      ensures logicIdx > snapLastIdx ==> tailLog[r] == full[logicIdx]
    {
      TailMeaning(Image(), full);
      logicIdx - snapLastIdx
    }

    /** `at`. */
    function At(logicIdx: nat): (e: LogEntry)
      requires Valid() && snapLastIdx <= logicIdx < Size()
      reads this
      ensures e.term == full[logicIdx].term
      ensures logicIdx > snapLastIdx ==> e == full[logicIdx]
    {
      tailLog[Idx(logicIdx)]
    }

    /** `last`. */
    function Last(): (r: (nat, nat))
      requires Valid()
      reads this
      ensures r == (|full| - 1, LastTerm(full))
    {
      TailMeaning(Image(), full);
      (Size() - 1, tailLog[|tailLog| - 1].term)
    }

    /** `tail`: everything from `startIdx` on; at the boundary, its dummy comes first. */
    function Tail(startIdx: nat): (es: seq<LogEntry>)
      requires Valid() && snapLastIdx <= startIdx
      reads this
      ensures startIdx >= |full| ==> es == []
      ensures snapLastIdx < startIdx < |full| ==> es == full[startIdx..]
      ensures startIdx == snapLastIdx ==> es == [Boundary(full[startIdx].term)] + full[startIdx + 1..]
    {
      if startIdx >= Size() then []
      else
        assert startIdx > snapLastIdx ==>
          tailLog[startIdx - snapLastIdx..] == tailLog[1..][startIdx - snapLastIdx - 1..];
        tailLog[Idx(startIdx)..]
    }

    /** `append`. */
    method Append(e: LogEntry)
      requires Valid()
      modifies this
      ensures Valid() && full == old(full) + [e]
      ensures snapLastIdx == old(snapLastIdx) && snapshot == old(snapshot)
      ensures Image() == Perform(old(Image()), LogOp.Append(e))
    {
      PerformRefines(Image(), full, LogOp.Append(e));
      tailLog := tailLog + [e];
      full := full + [e];
    }

    /** `appendFrom`: keeps the log up to `prevIdx` and nothing after it. */
    method AppendFrom(prevIdx: nat, entries: seq<LogEntry>)
      requires Valid() && snapLastIdx <= prevIdx < Size()
      modifies this
      ensures Valid() && full == old(full)[..prevIdx + 1] + entries
      ensures snapLastIdx == old(snapLastIdx) && snapshot == old(snapshot)
      ensures Image() == Perform(old(Image()), LogOp.AppendFrom(prevIdx, entries))
    {
      PerformRefines(Image(), full, LogOp.AppendFrom(prevIdx, entries));
      tailLog := tailLog[..Idx(prevIdx) + 1] + entries;
      full := full[..prevIdx + 1] + entries;
    }

    /** `doSnapshot`: only the boundary moves. */
    method DoSnapshot(index: nat, image: string)
      requires Valid() && snapLastIdx <= index < Size()
      modifies this
      ensures Valid() && full == old(full)
      ensures snapLastIdx == index && snapshot == image
      ensures Image() == Perform(old(Image()), LogOp.DoSnapshot(index))
    {
      hide Refines;
      PerformRefines(Image(), full, LogOp.DoSnapshot(index));
      var idx := Idx(index);
      snapLastIdx := index;
      snapLastTerm := tailLog[idx].term;
      snapshot := image;
      tailLog := [Boundary(snapLastTerm)] + tailLog[idx + 1..];
    }

    /** `installSnapshot`: the whole tail goes; `prefix` is what the snapshot covers. */
    method InstallSnapshot(index: nat, term: nat, image: string, ghost prefix: seq<LogEntry>)
      requires |prefix| == index + 1 && prefix[index].term == term
      modifies this
      ensures Valid() && full == prefix
      ensures snapLastIdx == index && snapshot == image
      ensures Image() == Perform(old(Image()), LogOp.InstallSnapshot(prefix))
    {
      snapLastIdx, snapLastTerm, snapshot := index, term, image;
      tailLog := [Boundary(snapLastTerm)];
      full := prefix;
    }

    /** `persist`. */
    method Persist() returns (image: LogImage)
      ensures image == Image()
    {
      image := LogImage(snapLastIdx, snapLastTerm, tailLog);
    }

    /** `readPersist`: whatever log was written is the log again. */
    method ReadPersist(image: LogImage, ghost written: seq<LogEntry>)
      requires Refines(image, written)
      modifies this
      ensures Valid() && Image() == image && full == written && snapshot == old(snapshot)
    {
      snapLastIdx := image.snapLastIdx;
      snapLastTerm := image.snapLastTerm;
      tailLog := image.tailLog;
      full := written;
    }
  }
}
