/** Building the linked history (src/porcupine/checker.go, `insertBefore`, `makeLinkedEntries`,
    `length`). */
module LinkedEntries {
  import opened Entries
  import opened DancingLinks
  import opened Search

  /** `insertBefore`. */
  method InsertBefore<V>(n: Node<V>, mark: Node?<V>)
    requires mark != null ==> mark != n && mark.prev != n && mark.prev != mark
    modifies n, if mark == null then {} else if mark.prev == null then {mark} else {mark, mark.prev}
    ensures mark == null ==> n.next == old(n.next) && n.prev == old(n.prev)
    ensures mark != null ==> n.next == mark && mark.prev == n && mark.next == old(mark.next)
    ensures mark != null && old(mark.prev) == null ==> n.prev == old(n.prev)
    ensures mark != null && old(mark.prev) != null ==> n.prev == old(mark.prev) && old(mark.prev).next == n
  {
    if mark != null {
      var beforeMark := mark.prev;
      mark.prev := n;
      n.next := mark;
      if beforeMark != null {
        n.prev := beforeMark;
        beforeMark.next := n;
      }
    }
  }

  /** Nodes chained in order, not yet below a head. */
  ghost predicate Chained<V>(nodes: seq<Node<V>>)
    reads nodes
  {
    forall k | 0 <= k < |nodes| :: nodes[k].next == At(nodes, k + 1) && nodes[k].prev == At(nodes, k - 1)
  }

  /** Node `k` stands for entry `k`; a call node points to the node of its return. */
  ghost predicate Carries<I, O>(nodes: seq<Node<Value<I, O>>>, h: seq<Entry<I, O>>) {
    && |nodes| == |h|
    && (forall k | 0 <= k < |h| :: nodes[k].id == h[k].id && nodes[k].value == h[k].value)
    && (forall k | 0 <= k < |h| && h[k].kind.ReturnEntry? :: nodes[k].mate == null)
    && (forall j, k | 0 <= j < |h| && 0 <= k < |h| && h[j].kind.CallEntry? && h[k].kind.ReturnEntry? &&
                      h[j].id == h[k].id :: nodes[j].mate == nodes[k])
  }

  lemma ChainedCons<V>(node: Node<V>, nodes: seq<Node<V>>)
    requires forall k | 0 <= k < |nodes| :: nodes[k].next == At(nodes, k + 1)
    requires forall k | 0 < k < |nodes| :: nodes[k].prev == nodes[k - 1]
    requires node.next == At(nodes, 0) && node.prev == null
    requires nodes != [] ==> nodes[0].prev == node
    ensures Chained([node] + nodes)
  {
    var all := [node] + nodes;
    forall k | 0 <= k < |all|
      ensures all[k].next == At(all, k + 1) && all[k].prev == At(all, k - 1)
    {
      if k > 0 {
        assert all[k] == nodes[k - 1];
      }
    }
  }

  lemma CarriesCons<I, O>(
    node: Node<Value<I, O>>, x: Entry<I, O>, nodes: seq<Node<Value<I, O>>>, h: seq<Entry<I, O>>)
    requires Carries(nodes, h) && node.id == x.id && node.value == x.value
    requires x.kind.ReturnEntry? ==>
               node.mate == null && forall y | y in h :: y.id != x.id
    requires x.kind.CallEntry? ==>
               forall k | 0 <= k < |h| && h[k].kind.ReturnEntry? && h[k].id == x.id :: node.mate == nodes[k]
    ensures Carries([node] + nodes, [x] + h)
  {
    var all, g := [node] + nodes, [x] + h;
    forall j, k | 0 <= j < |g| && 0 <= k < |g| && g[j].kind.CallEntry? && g[k].kind.ReturnEntry? && g[j].id == g[k].id
      ensures all[j].mate == all[k]
    {
      if j > 0 {
        assert g[j] == h[j - 1];
      }
      if k > 0 {
        assert g[k] == h[k - 1];
      }
    }
    forall k | 0 <= k < |g|
      ensures all[k].id == g[k].id && all[k].value == g[k].value
      ensures g[k].kind.ReturnEntry? ==> all[k].mate == null
    {
      if k > 0 {
        assert all[k] == nodes[k - 1] && g[k] == h[k - 1];
      }
    }
  }

  /** Nothing after a return has its id. */
  ghost predicate CallsFirst<I, O>(h: seq<Entry<I, O>>) {
    forall j, k | 0 <= j < k < |h| && h[j].id == h[k].id :: h[j].kind.CallEntry? && h[k].kind.ReturnEntry?
  }

  /** The map from ids to return nodes, over the entries linked so far. */
  ghost predicate Recorded<I, O>(
    mates: map<int, Node<Value<I, O>>>, nodes: seq<Node<Value<I, O>>>, h: seq<Entry<I, O>>)
  {
    && |nodes| == |h|
    && forall k | 0 <= k < |h| && h[k].kind.ReturnEntry? :: h[k].id in mates && mates[h[k].id] == nodes[k]
  }

  lemma RecordedCons<I, O>(
    mates: map<int, Node<Value<I, O>>>, node: Node<Value<I, O>>, x: Entry<I, O>,
    nodes: seq<Node<Value<I, O>>>, h: seq<Entry<I, O>>)
    requires Recorded(mates, nodes, h)
    requires x.kind.ReturnEntry? ==> forall y | y in h :: y.id != x.id
    ensures Recorded(if x.kind.ReturnEntry? then mates[x.id := node] else mates, [node] + nodes, [x] + h)
  {
    var all, g := [node] + nodes, [x] + h;
    forall k | 0 < k < |g|
      ensures g[k] == h[k - 1] && all[k] == nodes[k - 1]
    {
    }
  }

  lemma CallsFirstSuffix<I, O>(h: seq<Entry<I, O>>, i: nat)
    requires CallsFirst(h) && i < |h|
    ensures h[i..] == [h[i]] + h[i + 1..]
    ensures h[i].kind.ReturnEntry? ==> forall y | y in h[i + 1..] :: y.id != h[i].id
  {
    forall y | y in h[i + 1..]
      ensures h[i].kind.ReturnEntry? ==> y.id != h[i].id
    {
      var k :| i < k < |h| && h[k] == y;
    }
  }

  /** Inserts a new node before the first one. */
  method LinkNode<V>(node: Node<V>, root: Node?<V>, ghost nodes: seq<Node<V>>)
    requires Chained(nodes) && root == At(nodes, 0) && node !in nodes && node.next == null && node.prev == null
    modifies node, nodes
    ensures Chained([node] + nodes)
  {
    InsertBefore(node, root);
    ChainedCons(node, nodes);
  }

  /** Links one more entry in front of the list. */
  method LinkEntry<I, O>(
    elem: Entry<I, O>, root: Node?<Value<I, O>>, mates: map<int, Node<Value<I, O>>>,
    ghost nodes: seq<Node<Value<I, O>>>, ghost h: seq<Entry<I, O>>)
    returns (node: Node<Value<I, O>>, mates': map<int, Node<Value<I, O>>>)
    requires Chained(nodes) && Carries(nodes, h) && Recorded(mates, nodes, h) && root == At(nodes, 0)
    requires elem.kind.ReturnEntry? ==> forall y | y in h :: y.id != elem.id
    modifies nodes
    ensures fresh(node) && Chained([node] + nodes)
    ensures Carries([node] + nodes, [elem] + h) && Recorded(mates', [node] + nodes, [elem] + h)
  {
    if elem.kind.ReturnEntry? {
      node := new Node(elem.value, null, elem.id);
      mates' := mates[elem.id := node];
    } else {
      node := new Node(elem.value, if elem.id in mates then mates[elem.id] else null, elem.id);
      mates' := mates;
    }
    CarriesCons(node, elem, nodes, h);
    RecordedCons(mates, node, elem, nodes, h);
    hide Carries, Recorded, Chained;
    LinkNode(node, root, nodes);
  }

  /** `makeLinkedEntries`: from the last entry to the first. */
  method MakeLinkedEntries<I, O>(entries: seq<Entry<I, O>>)
    returns (root: Node?<Value<I, O>>, ghost nodes: seq<Node<Value<I, O>>>)
    requires CallsFirst(entries)
    ensures fresh(nodes) && Distinct(nodes) && Chained(nodes) && Carries(nodes, entries)
    ensures root == At(nodes, 0)
  {
    hide Carries, CallsFirst, Chained, Recorded;
    root, nodes := null, [];
    var mates: map<int, Node<Value<I, O>>> := map[];
    var i := |entries|;
    NothingLinked(mates);
    assert entries[i..] == [];
    while i > 0
      invariant 0 <= i <= |entries|
      invariant fresh(nodes) && Distinct(nodes) && Chained(nodes)
      invariant Carries(nodes, entries[i..]) && Recorded(mates, nodes, entries[i..])
      invariant root == At(nodes, 0)
    {
      i := i - 1;
      CallsFirstSuffix(entries, i);
      root, mates := LinkEntry(entries[i], root, mates, nodes, entries[i + 1..]);
      nodes := [root] + nodes;
    }
    assert entries[0..] == entries;
  }

  /** The sentinel in front of the list. */
  method AddHead<I, O>(entry: Node?<Value<I, O>>, ghost tail: seq<Node<Value<I, O>>>)
    returns (headEntry: Node<Value<I, O>>)
    requires Chained(tail) && Distinct(tail) && entry == At(tail, 0)
    modifies tail
    ensures fresh(headEntry) && headEntry.id == -1 && headEntry.value == Nil
    ensures Chained([headEntry] + tail) && Distinct([headEntry] + tail)
  {
    headEntry := new Node(Nil, null, -1);
    LinkNode(headEntry, entry, tail);
  }

  lemma NothingLinked<I, O>(mates: map<int, Node<Value<I, O>>>)
    ensures Chained<Value<I, O>>([]) && Carries<I, O>([], []) && Recorded(mates, [], [])
  {
  }
  /** `length` of the list from `n` on. */
  method Length<V>(n: Node?<V>, ghost nodes: seq<Node<V>>) returns (l: nat)
    requires Chained(nodes) && n == At(nodes, 0)
    ensures l == |nodes|
  {
    var m := n;
    l := 0;
    while m != null
      invariant 0 <= l <= |nodes| && m == At(nodes, l)
      decreases |nodes| - l
    {
      m := m.next;
      l := l + 1;
    }
  }

  /** The whole list below its head: pointers as prescribed, mates as in the history. */
  ghost predicate Mates<I, O>(nodes: seq<Node<Value<I, O>>>, e: seq<Entry<I, O>>, n: nat)
    requires WellFormed(e, n)
  {
    && |nodes| == |e|
    && (forall p | 0 <= p < |e| :: nodes[p].id == e[p].id && nodes[p].value == e[p].value)
    && (forall p | IsReturn(e, p) :: nodes[p].mate == null)
    && (forall p | IsCall(e, p) :: nodes[p].mate == nodes[Mate(e, n, p)])
  }

  lemma RootedMates<I, O>(
    head: Node<Value<I, O>>, nodes: seq<Node<Value<I, O>>>, h: seq<Entry<I, O>>, n: nat)
    requires WellFormed(Rooted(h), n) && Carries(nodes, h) && head.id == -1 && head.value == Nil
    ensures Mates([head] + nodes, Rooted(h), n)
  {
    var e, all := Rooted(h), [head] + nodes;
    forall p | 0 < p < |e|
      ensures e[p] == h[p - 1] && all[p] == nodes[p - 1]
    {
    }
    forall p | IsCall(e, p)
      ensures all[p].mate == all[Mate(e, n, p)]
    {
      var r := Mate(e, n, p);
      assert e[p] == h[p - 1] && e[r] == h[r - 1] && all[p] == nodes[p - 1] && all[r] == nodes[r - 1];
    }
  }

  lemma RootedCallsFirst<I, O>(h: seq<Entry<I, O>>, n: nat)
    requires WellFormed(Rooted(h), n)
    ensures CallsFirst(h)
  {
    var e := Rooted(h);
    forall j, k | 0 <= j < k < |h| && h[j].id == h[k].id
      ensures h[j].kind.CallEntry? && h[k].kind.ReturnEntry?
    {
      assert e[j + 1] == h[j] && e[k + 1] == h[k];
    }
  }

  lemma ChainedWired<V>(nodes: seq<Node<V>>)
    requires Chained(nodes)
    ensures Wired(nodes, [])
  {
  }
}
