/** Call and return entries of a history, in time order (src/porcupine/checker.go, `entry`,
    `byTime`, `makeEntries`). */
module Entries {
  import opened Linearizability
  import Sorting

  datatype EntryKind = CallEntry | ReturnEntry

  /** What `interface{}` holds: an input, an output, or nothing (the list head). */
  datatype Value<I, O> = Nil | In(input: I) | Out(output: O)

  datatype Entry<I, O> = Entry(kind: EntryKind, value: Value<I, O>, id: int, time: int, clientId: int)

  /** `byTime.Less`: by time, and at equal times calls before returns. */
  predicate Less<I, O>(a: Entry<I, O>, b: Entry<I, O>) {
    if a.time != b.time then a.time < b.time else a.kind.CallEntry? && b.kind.ReturnEntry?
  }

  function CallOf<I, O>(ops: seq<Operation<I, O>>, id: nat): Entry<I, O>
    requires id < |ops|
  {
    Entry(CallEntry, In(ops[id].input), id, ops[id].call, ops[id].clientId)
  }

  function ReturnOf<I, O>(ops: seq<Operation<I, O>>, id: nat): Entry<I, O>
    requires id < |ops|
  {
    Entry(ReturnEntry, Out(ops[id].output), id, ops[id].ret, ops[id].clientId)
  }

  /** Both entries of the first `k` operations, unsorted. */
  function EntriesOf<I, O>(ops: seq<Operation<I, O>>, k: nat): seq<Entry<I, O>>
    requires k <= |ops|
  {
    if k == 0 then [] else EntriesOf(ops, k - 1) + [CallOf(ops, k - 1)] + [ReturnOf(ops, k - 1)]
  }

  /** A complete history: no operation returns before it is called. */
  predicate Complete<I, O>(ops: seq<Operation<I, O>>) {
    forall i | 0 <= i < |ops| :: ops[i].call <= ops[i].ret
  }

  /** `h` is some order the sort may leave: a permutation of the entries without inversions. */
  ghost predicate IsSortedHistory<I, O>(h: seq<Entry<I, O>>, ops: seq<Operation<I, O>>) {
    && multiset(h) == multiset(EntriesOf(ops, |ops|))
    && forall i, j | 0 <= i < j < |h| :: !Less(h[j], h[i])
  }

  /** `makeEntries`. */
  method MakeEntries<I(==, !new), O(==, !new)>(history: seq<Operation<I, O>>) returns (entries: seq<Entry<I, O>>)
    ensures IsSortedHistory(entries, history)
    ensures |entries| == 2 * |history| && forall x | x in entries :: Describes(x, history)
    ensures forall i, j | 0 <= i < j < |entries| ::
              entries[i].time < entries[j].time
              || (entries[i].time == entries[j].time && (entries[i].kind.CallEntry? || entries[j].kind.ReturnEntry?))
  {
    entries := [];
    for id := 0 to |history|
      invariant entries == EntriesOf(history, id)
    {
      entries := entries + [CallOf(history, id)];
      entries := entries + [ReturnOf(history, id)];
    }
    entries := Sorting.Sort(entries, Less);
    SortedHistoryDescribes(entries, history);
  }

  /** An entry tells of one operation: its client, and either when it was called and with what, or when it
      returned and with what. */
  ghost predicate Describes<I, O>(x: Entry<I, O>, ops: seq<Operation<I, O>>) {
    && 0 <= x.id < |ops| && x.clientId == ops[x.id].clientId
    && (x.kind.CallEntry? ==> x.time == ops[x.id].call && x.value == In(ops[x.id].input))
    && (x.kind.ReturnEntry? ==> x.time == ops[x.id].ret && x.value == Out(ops[x.id].output))
  }

  lemma SortedHistoryDescribes<I, O>(h: seq<Entry<I, O>>, ops: seq<Operation<I, O>>)
    requires IsSortedHistory(h, ops)
    ensures |h| == 2 * |ops| && forall x | x in h :: Describes(x, ops)
    ensures forall i, j | 0 <= i < j < |h| ::
              h[i].time < h[j].time || (h[i].time == h[j].time && (h[i].kind.CallEntry? || h[j].kind.ReturnEntry?))
  {
    hide EntriesOf;
    SortedHistoryMembers(h, ops);
    forall x | x in h
      ensures Describes(x, ops)
    {
      var i :| 0 <= i < |h| && h[i] == x;
      assert IsEntryOf(h[i], ops);
    }
    forall i, j | 0 <= i < j < |h|
      ensures h[i].time < h[j].time || (h[i].time == h[j].time && (h[i].kind.CallEntry? || h[j].kind.ReturnEntry?))
    {
      assert !Less(h[j], h[i]);
    }
  }

  // ----- what every such order looks like

  ghost predicate IsEntryOf<I, O>(x: Entry<I, O>, ops: seq<Operation<I, O>>) {
    0 <= x.id < |ops| && x == if x.kind.CallEntry? then CallOf(ops, x.id) else ReturnOf(ops, x.id)
  }

  lemma {:induction false} EntriesOfShape<I, O>(ops: seq<Operation<I, O>>, k: nat)
    requires k <= |ops|
    ensures |EntriesOf(ops, k)| == 2 * k
    ensures forall j | 0 <= j < 2 * k ::
              EntriesOf(ops, k)[j] == if j % 2 == 0 then CallOf(ops, j / 2) else ReturnOf(ops, j / 2)
  {
    if k > 0 {
      EntriesOfShape(ops, k - 1);
    }
  }

  lemma {:induction false} CountOnce<T>(xs: seq<T>, x: T)
    requires forall i, j | 0 <= i < j < |xs| :: xs[i] != xs[j]
    ensures multiset(xs)[x] <= 1
  {
    if xs != [] {
      var rest := xs[..|xs| - 1];
      assert xs == rest + [xs[|xs| - 1]];
      CountOnce(rest, x);
      assert xs[|xs| - 1] !in rest;
      assert xs[|xs| - 1] !in multiset(rest);
    }
  }

  lemma CountTwice<T>(xs: seq<T>, i: nat, j: nat)
    requires i < j < |xs| && xs[i] == xs[j]
    ensures multiset(xs)[xs[i]] >= 2
  {
    assert xs == xs[..j] + [xs[j]] + xs[j + 1..];
    assert xs[i] in xs[..j];
    assert xs[i] in multiset(xs[..j]);
  }

  lemma PermutationMembers<T>(xs: seq<T>, ys: seq<T>)
    requires multiset(xs) == multiset(ys)
    ensures |xs| == |ys|
    ensures forall x :: x in xs <==> x in ys
  {
    assert |xs| == |multiset(xs)| == |ys|;
    forall x
      ensures x in xs <==> x in ys
    {
      assert x in xs <==> x in multiset(xs);
      assert x in ys <==> x in multiset(ys);
    }
  }

  /** Every id has one call and one later return, and a return precedes a call exactly when the
      first operation returned strictly before the second was called. */
  ghost predicate Represents<I, O>(h: seq<Entry<I, O>>, ops: seq<Operation<I, O>>) {
    && |h| == 2 * |ops|
    && (forall i | 0 <= i < |h| :: IsEntryOf(h[i], ops))
    && (forall i, j | 0 <= i < j < |h| && h[i].id == h[j].id ::
          h[i].kind.CallEntry? && h[j].kind.ReturnEntry?)
    && (forall id | 0 <= id < |ops| :: CallOf(ops, id) in h && ReturnOf(ops, id) in h)
    && (forall i, j | 0 <= i < |h| && 0 <= j < |h| && h[i].kind.ReturnEntry? && h[j].kind.CallEntry? ::
          i < j <==> ops[h[i].id].ret < ops[h[j].id].call)
  }

  lemma SortedHistoryMembers<I, O>(h: seq<Entry<I, O>>, ops: seq<Operation<I, O>>)
    requires IsSortedHistory(h, ops)
    ensures |h| == 2 * |ops|
    ensures forall i | 0 <= i < |h| :: IsEntryOf(h[i], ops)
    ensures forall id | 0 <= id < |ops| :: CallOf(ops, id) in h && ReturnOf(ops, id) in h
  {
    hide EntriesOf;
    var u := EntriesOf(ops, |ops|);
    EntriesOfShape(ops, |ops|);
    PermutationMembers(h, u);
    forall i | 0 <= i < |h|
      ensures IsEntryOf(h[i], ops)
    {
      assert h[i] in u;
      var j :| 0 <= j < |u| && u[j] == h[i];
      assert 0 <= j / 2 < |ops|;
    }
    forall id | 0 <= id < |ops|
      ensures CallOf(ops, id) in h && ReturnOf(ops, id) in h
    {
      assert (2 * id) / 2 == id && (2 * id + 1) / 2 == id && (2 * id) % 2 == 0 && (2 * id + 1) % 2 == 1;
      assert u[2 * id] == CallOf(ops, id) && u[2 * id + 1] == ReturnOf(ops, id);
    }
  }

  lemma SortedHistoryDistinct<I, O>(h: seq<Entry<I, O>>, ops: seq<Operation<I, O>>, i: nat, j: nat)
    requires IsSortedHistory(h, ops) && i < j < |h|
    ensures h[i] != h[j]
  {
    EntriesOfShape(ops, |ops|);
    CountOnce(EntriesOf(ops, |ops|), h[i]);
    if h[i] == h[j] {
      CountTwice(h, i, j);
    }
  }

  /** Whatever order the sort leaves among ties, the history represents the operations. */
  lemma SortedHistoryRepresents<I, O>(h: seq<Entry<I, O>>, ops: seq<Operation<I, O>>)
    requires Complete(ops) && IsSortedHistory(h, ops)
    ensures Represents(h, ops)
  {
    hide EntriesOf;
    SortedHistoryMembers(h, ops);
    forall i, j | 0 <= i < j < |h| && h[i].id == h[j].id
      ensures h[i].kind.CallEntry? && h[j].kind.ReturnEntry?
    {
      SortedHistoryDistinct(h, ops, i, j);
      assert IsEntryOf(h[i], ops) && IsEntryOf(h[j], ops) && !Less(h[j], h[i]);
    }
    forall i, j | 0 <= i < |h| && 0 <= j < |h| && h[i].kind.ReturnEntry? && h[j].kind.CallEntry?
      ensures i < j <==> ops[h[i].id].ret < ops[h[j].id].call
    {
      assert IsEntryOf(h[i], ops) && IsEntryOf(h[j], ops);
      if i < j {
        assert !Less(h[j], h[i]);
      } else {
        assert j < i && !Less(h[i], h[j]);
      }
    }
  }
}
