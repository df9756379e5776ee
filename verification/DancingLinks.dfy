/** The doubly linked list of call and return nodes and its in-place edits
    (src/porcupine/checker.go, `node`, `lift`, `unlift`).

    Nodes are named by their position in the original list, 0 being the sentinel head.  A stack of
    removed positions determines every `next` and `prev` field, also those of removed nodes. */
module DancingLinks {

  class Node<V> {
    const value: V
    const mate: Node?<V>  // the return node of a call, null for a return
    const id: int
    var next: Node?<V>
    var prev: Node?<V>

    constructor (value: V, mate: Node?<V>, id: int)
      ensures this.value == value && this.mate == mate && this.id == id
      ensures next == null && prev == null
    {
      this.value, this.mate, this.id := value, mate, id;
      next, prev := null, null;
    }
  }

  // ----- pointers as a function of the removal stack

  /** Where node `i` points forward to after removing `rem`, oldest first. */
  function NextOf(rem: seq<int>, i: int): int {
    if rem == [] then i + 1 else
      var x, rest := rem[|rem| - 1], rem[..|rem| - 1];
      var a := NextOf(rest, i);
      if i !in rem && a == x then NextOf(rest, x) else a
  }

  /** Where node `i` points backward to after removing `rem`, oldest first. */
  function PrevOf(rem: seq<int>, i: int): int {
    if rem == [] then i - 1 else
      var x, rest := rem[|rem| - 1], rem[..|rem| - 1];
      var a := PrevOf(rest, i);
      if i !in rem && a == x then PrevOf(rest, x) else a
  }

  /** Distinct removed positions, never the head. */
  ghost predicate Removals(m: nat, rem: seq<int>) {
    && (forall k | 0 <= k < |rem| :: 0 < rem[k] < m)
    && (forall j, k | 0 <= j < k < |rem| :: rem[j] != rem[k])
  }

  /** Remaining nodes stay in their original order: `NextOf` is the nearest remaining node to the
      right, `PrevOf` the nearest to the left, and the two are inverse. */
  lemma {:induction false} OrderKept(m: nat, rem: seq<int>, i: int)
    requires Removals(m, rem) && 0 <= i < m && i !in rem
    ensures i < NextOf(rem, i) <= m && NextOf(rem, i) !in rem
    ensures forall k | i < k < NextOf(rem, i) :: k in rem
    ensures -1 <= PrevOf(rem, i) < i && PrevOf(rem, i) !in rem
    ensures forall k | PrevOf(rem, i) < k < i :: k in rem
  {
    if rem != [] {
      var x, rest := rem[|rem| - 1], rem[..|rem| - 1];
      assert rem == rest + [x];
      OrderKept(m, rest, i);
      OrderKept(m, rest, x);
    }
  }

  // ----- the heap

  ghost function At<V>(nodes: seq<Node<V>>, p: int): Node?<V> {
    if 0 <= p < |nodes| then nodes[p] else null
  }

  ghost predicate Distinct<V>(nodes: seq<Node<V>>) {
    forall i, j | 0 <= i < j < |nodes| :: nodes[i] != nodes[j]
  }

  /** Every pointer, of remaining and of removed nodes, is the one the removal stack prescribes. */
  ghost predicate Wired<V>(nodes: seq<Node<V>>, rem: seq<int>)
    reads nodes
  {
    forall i | 0 <= i < |nodes| ::
      nodes[i].next == At(nodes, NextOf(rem, i)) && nodes[i].prev == At(nodes, PrevOf(rem, i))
  }

  lemma StepOfStack(rem: seq<int>, x: int, i: int)
    requires x !in rem
    ensures NextOf(rem + [x], i) ==
            if i !in rem + [x] && NextOf(rem, i) == x then NextOf(rem, x) else NextOf(rem, i)
    ensures PrevOf(rem + [x], i) ==
            if i !in rem + [x] && PrevOf(rem, i) == x then PrevOf(rem, x) else PrevOf(rem, i)
  {
    assert (rem + [x])[..|rem|] == rem;
  }

  /** Only the two neighbours of `x` see their pointers change when `x` is removed. */
  lemma OnlyNeighbours(m: nat, rem: seq<int>, x: int, i: int)
    requires Removals(m, rem) && 0 < x < m && x !in rem && 0 <= i < m
    ensures 0 <= PrevOf(rem, x) < x < NextOf(rem, x) <= m
    ensures i !in rem && NextOf(rem, i) == x <==> i == PrevOf(rem, x)
    ensures i !in rem && PrevOf(rem, i) == x <==> i == NextOf(rem, x)
  {
    OrderKept(m, rem, x);
    if i !in rem {
      OrderKept(m, rem, i);
    }
  }

  /** The first half of `lift`: a call has a node after it, so its `next` is followed unasked. */
  method DetachCall<V>(node: Node<V>, ghost nodes: seq<Node<V>>, ghost rem: seq<int>, ghost x: int)
    requires Distinct(nodes) && Removals(|nodes|, rem) && Wired(nodes, rem)
    requires 0 < x < |nodes| && x !in rem && nodes[x] == node && NextOf(rem, x) < |nodes|
    modifies nodes
    ensures Wired(nodes, rem + [x])
  {
    hide NextOf, PrevOf;
    OnlyNeighbours(|nodes|, rem, x, x);
    node.prev.next := node.next;
    node.next.prev := node.prev;
    assert forall i | 0 <= i < |nodes| ::
      && nodes[i].next == (if i == PrevOf(rem, x) then node.next else old(nodes[i].next))
      && nodes[i].prev == (if i == NextOf(rem, x) then node.prev else old(nodes[i].prev));
    forall i | 0 <= i < |nodes|
      ensures nodes[i].next == At(nodes, NextOf(rem + [x], i))
      ensures nodes[i].prev == At(nodes, PrevOf(rem + [x], i))
    {
      StepOfStack(rem, x, i);
      OnlyNeighbours(|nodes|, rem, x, i);
    }
  }

  /** The second half of `lift`: a return may be the last node. */
  method Detach<V>(node: Node<V>, ghost nodes: seq<Node<V>>, ghost rem: seq<int>, ghost x: int)
    requires Distinct(nodes) && Removals(|nodes|, rem) && Wired(nodes, rem)
    requires 0 < x < |nodes| && x !in rem && nodes[x] == node
    modifies nodes
    ensures Wired(nodes, rem + [x])
  {
    hide NextOf, PrevOf;
    OnlyNeighbours(|nodes|, rem, x, x);
    node.prev.next := node.next;
    if node.next != null {
      node.next.prev := node.prev;
    }
    assert forall i | 0 <= i < |nodes| ::
      && nodes[i].next == (if i == PrevOf(rem, x) then node.next else old(nodes[i].next))
      && nodes[i].prev == (if i == NextOf(rem, x) then node.prev else old(nodes[i].prev));
    forall i | 0 <= i < |nodes|
      ensures nodes[i].next == At(nodes, NextOf(rem + [x], i))
      ensures nodes[i].prev == At(nodes, PrevOf(rem + [x], i))
    {
      StepOfStack(rem, x, i);
      OnlyNeighbours(|nodes|, rem, x, i);
    }
  }

  /** The second half of `unlift`: undoes the removal of a call. */
  method AttachCall<V>(node: Node<V>, ghost nodes: seq<Node<V>>, ghost rem: seq<int>, ghost x: int)
    requires Distinct(nodes) && Removals(|nodes|, rem) && Wired(nodes, rem + [x])
    requires 0 < x < |nodes| && x !in rem && nodes[x] == node && NextOf(rem, x) < |nodes|
    modifies nodes
    ensures Wired(nodes, rem)
  {
    hide NextOf, PrevOf;
    OnlyNeighbours(|nodes|, rem, x, x);
    StepOfStack(rem, x, x);
    node.prev.next := node;
    node.next.prev := node;
    forall i | 0 <= i < |nodes|
      ensures nodes[i].next == At(nodes, NextOf(rem, i))
      ensures nodes[i].prev == At(nodes, PrevOf(rem, i))
    {
      StepOfStack(rem, x, i);
      OnlyNeighbours(|nodes|, rem, x, i);
    }
  }

  /** The first half of `unlift`: undoes the removal of a return. */
  method Attach<V>(node: Node<V>, ghost nodes: seq<Node<V>>, ghost rem: seq<int>, ghost x: int)
    requires Distinct(nodes) && Removals(|nodes|, rem) && Wired(nodes, rem + [x])
    requires 0 < x < |nodes| && x !in rem && nodes[x] == node
    modifies nodes
    ensures Wired(nodes, rem)
  {
    hide NextOf, PrevOf;
    OnlyNeighbours(|nodes|, rem, x, x);
    StepOfStack(rem, x, x);
    node.prev.next := node;
    if node.next != null {
      node.next.prev := node;
    }
    forall i | 0 <= i < |nodes|
      ensures nodes[i].next == At(nodes, NextOf(rem, i))
      ensures nodes[i].prev == At(nodes, PrevOf(rem, i))
    {
      StepOfStack(rem, x, i);
      OnlyNeighbours(|nodes|, rem, x, i);
    }
  }

  /** A remaining node with another one after it is followed by a node. */
  lemma NotLast(m: nat, rem: seq<int>, c: int, r: int)
    requires Removals(m, rem) && 0 < c < r < m && c !in rem && r !in rem
    ensures NextOf(rem, c) <= r
  {
    hide NextOf, PrevOf;
    OrderKept(m, rem, c);
  }

  /** `lift`: removes a call node and then its return node, adjacent or not. */
  method Lift<V>(entry: Node<V>, ghost nodes: seq<Node<V>>, ghost rem: seq<int>, ghost c: int, ghost r: int)
    requires Distinct(nodes) && Removals(|nodes|, rem) && Wired(nodes, rem)
    requires 0 < c < r < |nodes| && c !in rem && r !in rem
    requires nodes[c] == entry && entry.mate == nodes[r]
    modifies nodes
    ensures Wired(nodes, rem + [c] + [r])
  {
    hide NextOf, PrevOf, Wired, Distinct;
    assert Removals(|nodes|, rem + [c]);
    NotLast(|nodes|, rem, c, r);
    DetachCall(entry, nodes, rem, c);
    Detach(entry.mate, nodes, rem + [c], r);
  }

  /** `unlift`: in stack order, restores every pointer `lift` changed. */
  method Unlift<V>(entry: Node<V>, ghost nodes: seq<Node<V>>, ghost rem: seq<int>, ghost c: int, ghost r: int)
    requires Distinct(nodes) && Removals(|nodes|, rem) && Wired(nodes, rem + [c] + [r])
    requires 0 < c < r < |nodes| && c !in rem && r !in rem
    requires nodes[c] == entry && entry.mate == nodes[r]
    modifies nodes
    ensures Wired(nodes, rem)
  {
    hide NextOf, PrevOf, Wired, Distinct;
    assert Removals(|nodes|, rem + [c]);
    NotLast(|nodes|, rem, c, r);
    Attach(entry.mate, nodes, rem + [c], r);
    AttachCall(entry, nodes, rem, c);
  }
}
