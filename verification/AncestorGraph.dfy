/** The depth-first search for cycles among listed ancestors (src/format/snapshot_revision.cpp, validate_ancestor_graph). */
module AncestorGraph {
  import opened Wrappers
  import opened TextValidation

  const ID_SIZE: nat := 32

  /** One listed revision, and the identifiers of its parents, listed or not, one after the other. */
  datatype Node = Node(id: Bytes, parentBytes: Bytes)

  /** The parents' identifiers, one by one; a partial one at the end is none. */
  function Parents(node: Node): (ps: seq<Bytes>)
    ensures |ps| == |node.parentBytes| / ID_SIZE
    ensures forall k | 0 <= k < |ps| :: ps[k] == node.parentBytes[k * ID_SIZE..k * ID_SIZE + ID_SIZE]
  {
    seq(|node.parentBytes| / ID_SIZE,
        k requires 0 <= k < |node.parentBytes| / ID_SIZE => node.parentBytes[k * ID_SIZE..k * ID_SIZE + ID_SIZE])
  }

  datatype AncestorLimits = AncestorLimits(maxEntries: nat, maxDepth: nat, maxParents: nat)

  datatype AncestorError = InvalidGraph | LimitExceeded

  datatype Mark = Unseen | Active | Done

  // ---------- What the check is for ----------

  ghost predicate Within(graph: seq<Node>, limits: AncestorLimits) {
    && |graph| <= limits.maxEntries && (graph != [] ==> limits.maxDepth >= 4)
    && forall i | 0 <= i < |graph| :: NodeWithin(graph[i], limits)
  }

  /** Whole identifiers only, and not too many of them. */
  predicate NodeWithin(node: Node, limits: AncestorLimits) {
    |node.parentBytes| % ID_SIZE == 0 && |Parents(node)| <= limits.maxParents && |Parents(node)| <= limits.maxEntries
  }

  ghost predicate DistinctNodes(graph: seq<Node>, n: nat)
    requires n <= |graph|
  {
    forall i, j | 0 <= i < j < n :: graph[i].id != graph[j].id
  }

  /** Node j is a listed parent of node i. */
  predicate Edge(graph: seq<Node>, i: nat, j: nat) {
    i < |graph| && j < |graph| && graph[j].id in Parents(graph[i])
  }

  ghost predicate Path(graph: seq<Node>, p: seq<nat>) {
    |p| > 0 && forall k | 0 <= k < |p| - 1 :: Edge(graph, p[k], p[k + 1])
  }

  /** Some path along listed parents comes back to where it began. */
  ghost predicate Cyclic(graph: seq<Node>) {
    exists p: seq<nat> :: |p| >= 2 && Path(graph, p) && p[0] == p[|p| - 1]
  }

  // ---------- Orders without cycles ----------

  /** Every listed parent of a node in the order stands before it. */
  ghost predicate Ordered(graph: seq<Node>, order: seq<nat>) {
    forall k, j: nat | 0 <= k < |order| && Edge(graph, order[k], j) :: j in order[..k]
  }

  function Rank(order: seq<nat>, x: nat): (r: nat)
    requires x in order
    ensures r < |order| && order[r] == x
    ensures forall k | 0 <= k < r :: order[k] != x
  {
    if order[0] == x then 0 else 1 + Rank(order[1..], x)
  }

  lemma RankFalls(graph: seq<Node>, order: seq<nat>, i: nat, j: nat)
    requires Ordered(graph, order) && i in order && Edge(graph, i, j)
    ensures j in order && Rank(order, j) < Rank(order, i)
  {
    var k := Rank(order, i);
    assert order[k] == i;
    assert j in order[..k];
    var m :| 0 <= m < k && order[..k][m] == j;
    assert order[m] == j;
  }

  lemma {:induction false} PathFalls(graph: seq<Node>, order: seq<nat>, p: seq<nat>, k: nat)
    requires Ordered(graph, order) && Path(graph, p) && k < |p| && p[0] in order
    ensures p[k] in order && Rank(order, p[k]) + k <= Rank(order, p[0])
  {
    if k > 0 {
      PathFalls(graph, order, p, k - 1);
      assert Edge(graph, p[k - 1], p[k - 1 + 1]);
      RankFalls(graph, order, p[k - 1], p[k]);
    }
  }

  /** Nothing in a complete order lies on a cycle. */
  lemma OrderedIsAcyclic(graph: seq<Node>, order: seq<nat>)
    requires Ordered(graph, order) && forall i: nat | i < |graph| :: i in order
    ensures !Cyclic(graph)
  {
    forall p: seq<nat> | |p| >= 2 && Path(graph, p) ensures p[0] != p[|p| - 1] {
      assert Edge(graph, p[0], p[0 + 1]);
      PathFalls(graph, order, p, |p| - 1);
    }
  }

  // ---------- Marks ----------

  function Unvisited(marks: seq<Mark>): nat {
    if marks == [] then 0 else Unvisited(marks[..|marks| - 1]) + (if marks[|marks| - 1] == Unseen then 1 else 0)
  }

  lemma {:induction false} MarkingCounts(marks: seq<Mark>, i: nat, m: Mark)
    requires i < |marks| && m != Unseen
    ensures Unvisited(marks[i := m]) == Unvisited(marks) - (if marks[i] == Unseen then 1 else 0)
  {
    var n := |marks| - 1;
    if i < n {
      MarkingCounts(marks[..n], i, m);
      assert marks[i := m][..n] == marks[..n][i := m];
    } else {
      assert marks[i := m][..n] == marks[..n];
    }
  }

  /** The marks say what is on the stack, a path, and what is finished, in an order without cycles. */
  ghost predicate Tracks(graph: seq<Node>, marks: seq<Mark>, stack: seq<nat>, order: seq<nat>) {
    && |marks| == |graph|
    && (forall i: nat | i < |marks| :: marks[i] == Active <==> i in stack)
    && (forall i: nat | i < |marks| :: marks[i] == Done <==> i in order)
    && (stack != [] ==> Path(graph, stack)) && Ordered(graph, order)
    && (forall i | i in order :: i < |graph|)
  }

  /** Meeting a node that is on the stack closes a cycle. */
  lemma CycleFound(graph: seq<Node>, stack: seq<nat>, index: nat)
    requires stack != [] && Path(graph, stack) && Edge(graph, stack[|stack| - 1], index) && index in stack
    ensures Cyclic(graph)
  {
    var k :| 0 <= k < |stack| && stack[k] == index;
    var p := stack[k..] + [index];
    forall i | 0 <= i < |p| - 1 ensures Edge(graph, p[i], p[i + 1]) {
      if k + i < |stack| - 1 { assert Edge(graph, stack[k + i], stack[k + i + 1]); }
    }
    assert Path(graph, p) && p[0] == p[|p| - 1];
  }

  lemma StackGrows(graph: seq<Node>, marks: seq<Mark>, stack: seq<nat>, order: seq<nat>, index: nat)
    requires Tracks(graph, marks, stack, order) && index < |graph| && marks[index] == Unseen
    requires stack != [] ==> Edge(graph, stack[|stack| - 1], index)
    ensures Tracks(graph, marks[index := Active], stack + [index], order)
  {
    var grown := stack + [index];
    forall k | 0 <= k < |grown| - 1 ensures Edge(graph, grown[k], grown[k + 1]) {
      if k < |stack| - 1 { assert Edge(graph, stack[k], stack[k + 1]); }
    }
  }

  lemma NodeFinishes(graph: seq<Node>, marks: seq<Mark>, stack: seq<nat>, order: seq<nat>, index: nat)
    requires Tracks(graph, marks, stack + [index], order) && index < |graph| && index !in stack && index !in order
    requires forall j: nat | Edge(graph, index, j) :: j in order
    ensures Tracks(graph, marks[index := Done], stack, order + [index])
  {
    var grown := stack + [index];
    forall k | 0 <= k < |stack| - 1 ensures Edge(graph, stack[k], stack[k + 1]) {
      assert Edge(graph, grown[k], grown[k + 1]);
    }
    var longer := order + [index];
    forall k, j: nat | 0 <= k < |longer| && Edge(graph, longer[k], j) ensures j in longer[..k] {
      if k < |order| { assert longer[..k] == order[..k]; } else { assert longer[..k] == order; }
    }
  }

  // ---------- The search ----------

  ghost predicate Indexes(graph: seq<Node>, nodes: map<Bytes, nat>) {
    && (forall id | id in nodes :: nodes[id] < |graph| && graph[nodes[id]].id == id)
    && (forall i: nat | i < |graph| :: graph[i].id in nodes && nodes[graph[i].id] == i)
  }

  /** One visit: either everything below the node is finished, or a cycle was met. */
  method Visit(graph: seq<Node>, nodes: map<Bytes, nat>, state: array<Mark>, index: nat,
               ghost stack: seq<nat>, ghost order: seq<nat>)
    returns (ok: bool, ghost finished: seq<nat>)
    requires Indexes(graph, nodes) && Tracks(graph, state[..], stack, order) && index < |graph|
    requires forall i | 0 <= i < |graph| :: |graph[i].parentBytes| % ID_SIZE == 0
    requires stack != [] ==> Edge(graph, stack[|stack| - 1], index)
    modifies state
    ensures ok ==> Tracks(graph, state[..], stack, finished) && index in finished && order <= finished
    ensures !ok ==> Cyclic(graph)
    ensures Unvisited(state[..]) <= old(Unvisited(state[..]))
    decreases Unvisited(state[..])
  {
    hide Unvisited, Ordered, Path, Cyclic;
    finished := order;
    if state[index] == Active {
      CycleFound(graph, stack, index);
      return false, order;
    }
    if state[index] == Done { return true, order; }
    MarkingCounts(state[..], index, Active);
    StackGrows(graph, state[..], stack, order, index);
    ghost var before := state[..];
    state[index] := Active;
    assert state[..] == before[index := Active];
    var bytes := graph[index].parentBytes;
    ghost var parents := Parents(graph[index]);
    ghost var done := 0;
    var offset := 0;
    while offset < |bytes|
      invariant 0 <= done <= |parents| && offset == done * ID_SIZE
      invariant Tracks(graph, state[..], stack + [index], finished) && order <= finished
      invariant Unvisited(state[..]) < Unvisited(before)
      invariant forall k | 0 <= k < done && parents[k] in nodes :: nodes[parents[k]] in finished
    {
      var parent := bytes[offset..offset + ID_SIZE];
      assert parent == parents[done];
      if parent in nodes {
        var found := nodes[parent];
        assert graph[found].id == parent && Edge(graph, index, found);
        ok, finished := Visit(graph, nodes, state, found, stack + [index], finished);
        if !ok { return false, finished; }
      }
      offset := offset + ID_SIZE;
      done := done + 1;
    }
    assert (stack + [index])[|stack|] == index;
    assert state[index] == Active;
    MarkingCounts(state[..], index, Done);
    NodeFinishes(graph, state[..], stack, finished, index);
    ghost var after := state[..];
    state[index] := Done;
    assert state[..] == after[index := Done];
    return true, finished + [index];
  }

  /** Limits and distinct identifiers, in the order they are looked at. */
  method IndexNodes(graph: seq<Node>, limits: AncestorLimits) returns (r: Result<map<Bytes, nat>, AncestorError>)
    ensures r.Ok? <==> Within(graph, limits) && DistinctNodes(graph, |graph|)
    ensures r.Ok? ==> Indexes(graph, r.value)
  {
    if |graph| > limits.maxEntries || (graph != [] && limits.maxDepth < 4) { return Err(LimitExceeded); }
    var nodes: map<Bytes, nat> := map[];
    var index := 0;
    while index < |graph|
      invariant 0 <= index <= |graph| && DistinctNodes(graph, index)
      invariant forall id | id in nodes :: nodes[id] < index && graph[nodes[id]].id == id
      invariant forall i: nat | i < index :: graph[i].id in nodes && nodes[graph[i].id] == i
      invariant forall i | 0 <= i < index :: NodeWithin(graph[i], limits)
    {
      var node := graph[index];
      if |node.parentBytes| % ID_SIZE != 0 { return Err(InvalidGraph); }
      var count := |node.parentBytes| / ID_SIZE;
      if count > limits.maxParents || count > limits.maxEntries { return Err(LimitExceeded); }
      if node.id in nodes { return Err(InvalidGraph); }
      nodes := nodes[node.id := index];
      index := index + 1;
    }
    return Ok(nodes);
  }

  /** Accepts exactly lists within the limits, without repeated identifiers and without cycles. */
  method ValidateAncestorGraph(graph: seq<Node>, limits: AncestorLimits) returns (r: Result<bool, AncestorError>)
    ensures r.Ok? <==> Within(graph, limits) && DistinctNodes(graph, |graph|) && !Cyclic(graph)
  {
    hide Cyclic, DistinctNodes, Path;
    var indexed := IndexNodes(graph, limits);
    if indexed.Err? { return Err(indexed.error); }
    var state := new Mark[|graph|](_ => Unseen);
    ghost var order := [];
    var index := 0;
    while index < |graph|
      invariant 0 <= index <= |graph|
      invariant Tracks(graph, state[..], [], order)
      invariant forall i: nat | i < index :: i in order
    {
      ghost var before := order;
      var ok;
      ok, order := Visit(graph, indexed.value, state, index, [], order);
      if !ok { return Err(InvalidGraph); }
      forall i: nat | i < index ensures i in order { assert i in before; }
      index := index + 1;
    }
    OrderedIsAcyclic(graph, order);
    return Ok(true);
  }
}
