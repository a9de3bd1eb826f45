/** The layering loop of `diagram_spec_to_svg`: a queue of nodes without remaining
    in-edges, relaxing `layer[dst] = max(layer[dst], layer[src] + 1)` along the way. */
module DiagramLayering {
  import opened DiagramGraph
  import SetFacts
  import opened StableSort

  /** What the loop leaves behind. `order` lists the dequeued nodes, first to last. */
  ghost predicate Layered(g: Graph, order: seq<Id>, layer: map<Id, int>) {
    && layer.Keys == Elements(g.nodes)
    && Distinct(order)
    && Elements(order) <= Elements(g.nodes)
    // Only nodes with a predecessor that is itself stuck are never dequeued.
    && (forall v {:trigger AllPredecessorsIn(g.edges, v, Elements(order))} ::
          v in g.nodes ==> (v in order <==> AllPredecessorsIn(g.edges, v, Elements(order))))
    // Every edge leaving a dequeued node points strictly rightward ...
    && (forall e :: e in g.edges && e.src in order ==> e.dst in layer && layer[e.src] < layer[e.dst])
    // ... and a layer above 0 is forced by one such edge.
    && (forall v {:trigger Supported(g.edges, Elements(order), layer, v)} :: v in layer ==> Supported(g.edges, Elements(order), layer, v))
    && (forall v {:trigger HasPath(g.edges, v, layer[v])} :: v in layer ==> HasPath(g.edges, v, layer[v]))
    && (forall v :: v in layer ==> 0 <= layer[v] < |g.nodes|)
  }

  ghost predicate Supported(edges: seq<Edge>, done: set<Id>, layer: map<Id, int>, v: Id)
    requires v in layer
  {
    layer[v] == 0 || exists u :: u in done && u in layer && Edge(u, v) in edges && layer[v] == layer[u] + 1
  }

  // ---- The loop invariant ----

  ghost predicate Within(edges: seq<Edge>, known: set<Id>) {
    forall e :: e in edges ==> e.src in known && e.dst in known
  }

  /** Dequeued and queued nodes are distinct, known, and are exactly those without remaining in-edges.
      `left` holds the successors of the node being processed that are not yet relaxed;
      it is empty between iterations. */
  ghost predicate QueueInv(edges: seq<Edge>, order: seq<Id>, queue: seq<Id>, left: seq<Id>, indeg: map<Id, int>) {
    && Distinct(order + queue)
    && Elements(order + queue) <= indeg.Keys
    && Elements(left) <= indeg.Keys
    && (forall v {:trigger NodeInv(edges, order, queue, left, indeg, v)} ::
          v in indeg ==> NodeInv(edges, order, queue, left, indeg, v))
  }

  ghost predicate NodeInv(edges: seq<Edge>, order: seq<Id>, queue: seq<Id>, left: seq<Id>, indeg: map<Id, int>, v: Id)
    requires v in indeg
  {
    && indeg[v] == InDegree(edges, v, Elements(order)) + Occurrences(left, v)
    && (indeg[v] == 0 <==> v in order || v in queue)
  }

  ghost predicate LayerBounds(order: seq<Id>, layer: map<Id, int>) {
    forall v {:trigger LayerBound(order, layer, v)} :: v in layer ==> LayerBound(order, layer, v)
  }

  ghost predicate LayerBound(order: seq<Id>, layer: map<Id, int>, v: Id)
    requires v in layer
  {
    0 <= layer[v] <= |order| && (v in order ==> layer[v] < |order|)
  }

  ghost predicate LayerPaths(edges: seq<Edge>, layer: map<Id, int>) {
    forall v {:trigger HasPath(edges, v, layer[v])} :: v in layer ==> HasPath(edges, v, layer[v])
  }

  ghost predicate LayerSupport(edges: seq<Edge>, done: set<Id>, layer: map<Id, int>) {
    forall v {:trigger Supported(edges, done, layer, v)} :: v in layer ==> Supported(edges, done, layer, v)
  }

  /** Edges leaving dequeued nodes point rightward, except the pending ones. */
  ghost predicate LayerEdges(edges: seq<Edge>, order: seq<Id>, left: seq<Id>, layer: map<Id, int>)
    requires Within(edges, layer.Keys)
  {
    forall e {:trigger Rightward(order, left, layer, e)} :: e in edges ==> Rightward(order, left, layer, e)
  }

  ghost predicate Rightward(order: seq<Id>, left: seq<Id>, layer: map<Id, int>, e: Edge)
    requires e.src in layer && e.dst in layer
  {
    e.src in order ==> layer[e.src] < layer[e.dst] || (e.src == order[|order| - 1] && e.dst in left)
  }

  ghost predicate Inv(g: Graph, order: seq<Id>, queue: seq<Id>, left: seq<Id>,
                      indeg: map<Id, int>, layer: map<Id, int>)
  {
    && indeg.Keys == layer.Keys == Elements(g.nodes)
    && Within(g.edges, layer.Keys)
    && QueueInv(g.edges, order, queue, left, indeg)
    && LayerBounds(order, layer)
    && LayerPaths(g.edges, layer)
    && LayerSupport(g.edges, Elements(order), layer)
    && LayerEdges(g.edges, order, left, layer)
  }

  lemma Start(g: Graph, queue: seq<Id>, indeg: map<Id, int>, layer: map<Id, int>)
    requires Within(g.edges, layer.Keys) && Distinct(queue)
    requires indeg.Keys == layer.Keys == Elements(g.nodes)
    requires forall v :: v in indeg ==> indeg[v] == InDegree(g.edges, v, {})
    requires forall v :: v in queue <==> v in indeg && indeg[v] == 0
    requires forall v :: v in layer ==> layer[v] == 0
    ensures Inv(g, [], queue, [], indeg, layer)
  {
    assert [] + queue == queue;
    assert Elements<Id>([]) == {};
    forall v | v in layer
      ensures HasPath(g.edges, v, layer[v])
    {
      assert IsPathTo(g.edges, [v], v);
    }
    assert Elements(queue) <= indeg.Keys;
  }

  // Taking the head of the queue turns all its out-edges into pending relaxations.

  lemma DequeueQueue(edges: seq<Edge>, order: seq<Id>, queue: seq<Id>, indeg: map<Id, int>)
    requires Within(edges, indeg.Keys)
    requires QueueInv(edges, order, queue, [], indeg) && queue != []
    ensures QueueInv(edges, order + [queue[0]], queue[1..], Successors(edges, queue[0]), indeg)
  {
    var cur := queue[0];
    var left := Successors(edges, cur);
    assert (order + [cur]) + queue[1..] == order + queue;
    assert Elements(order + [cur]) == Elements(order) + {cur};
    assert cur !in order by {
      assert (order + queue)[|order|] == cur;
      assert forall i :: 0 <= i < |order| ==> order[i] == (order + queue)[i];
    }
    forall v | v in indeg
      ensures NodeInv(edges, order + [cur], queue[1..], left, indeg, v)
    {
      assert NodeInv(edges, order, queue, [], indeg, v);
      InDegreeAfter(edges, v, Elements(order), cur);
    }
    forall v | v in left
      ensures v in indeg
    {
      SuccessorsExact(edges, cur, v);
    }
  }

  lemma DequeueLayers(edges: seq<Edge>, order: seq<Id>, cur: Id, layer: map<Id, int>)
    requires Within(edges, layer.Keys)
    requires LayerBounds(order, layer) && LayerSupport(edges, Elements(order), layer) && LayerEdges(edges, order, [], layer)
    ensures LayerBounds(order + [cur], layer)
    ensures LayerSupport(edges, Elements(order + [cur]), layer)
    ensures LayerEdges(edges, order + [cur], Successors(edges, cur), layer)
  {
    forall v | v in layer
      ensures Supported(edges, Elements(order + [cur]), layer, v)
      ensures LayerBound(order + [cur], layer, v)
    {
      assert Supported(edges, Elements(order), layer, v);
      assert LayerBound(order, layer, v);
    }
    forall e | e in edges
      ensures Rightward(order + [cur], Successors(edges, cur), layer, e)
    {
      assert Rightward(order, [], layer, e);
      SuccessorsExact(edges, e.src, e.dst);
    }
  }

  lemma Dequeue(g: Graph, order: seq<Id>, queue: seq<Id>, indeg: map<Id, int>, layer: map<Id, int>)
    requires Inv(g, order, queue, [], indeg, layer) && queue != []
    ensures Inv(g, order + [queue[0]], queue[1..], Successors(g.edges, queue[0]), indeg, layer)
  {
    DequeueQueue(g.edges, order, queue, indeg);
    DequeueLayers(g.edges, order, queue[0], layer);
  }

  lemma DistinctFits(s: seq<Id>, nodes: seq<Id>)
    requires Distinct(s) && Distinct(nodes) && Elements(s) <= Elements(nodes)
    ensures |s| <= |nodes|
    ensures |s| == |nodes| ==> Elements(s) == Elements(nodes)
  {
    DistinctCount(s);
    DistinctCount(nodes);
    SetFacts.SubsetSize(Elements(s), Elements(nodes));
  }

  /** At most as many nodes are dequeued or queued as the graph has. */
  lemma QueueFits(g: Graph, order: seq<Id>, queue: seq<Id>, left: seq<Id>, indeg: map<Id, int>)
    requires Distinct(g.nodes) && indeg.Keys == Elements(g.nodes)
    requires QueueInv(g.edges, order, queue, left, indeg)
    ensures |order| + |queue| <= |g.nodes|
  {
    DistinctFits(order + queue, g.nodes);
  }

  // Relaxing one pending edge. The node's remaining in-degree is at least 1, so the clamp
  // at 0 in the source never changes anything.

  lemma RelaxQueue(edges: seq<Edge>, order: seq<Id>, queue: seq<Id>, left: seq<Id>, indeg: map<Id, int>)
    requires QueueInv(edges, order, queue, left, indeg) && left != []
    ensures left[0] in indeg && indeg[left[0]] >= 1 && left[0] !in order
    ensures var nxt := left[0];
            var indeg' := indeg[nxt := indeg[nxt] - 1];
            QueueInv(edges, order, if indeg'[nxt] == 0 then queue + [nxt] else queue, left[1..], indeg')
  {
    var nxt := left[0];
    assert nxt in Elements(left);
    assert NodeInv(edges, order, queue, left, indeg, nxt);
    var indeg' := indeg[nxt := indeg[nxt] - 1];
    var queue' := if indeg'[nxt] == 0 then queue + [nxt] else queue;
    forall v | v in indeg'
      ensures NodeInv(edges, order, queue', left[1..], indeg', v)
    {
      assert NodeInv(edges, order, queue, left, indeg, v);
      assert Occurrences(left, v) == (if nxt == v then 1 else 0) + Occurrences(left[1..], v);
    }
    assert (order + (queue + [nxt])) == (order + queue) + [nxt];
    assert Elements(order + (queue + [nxt])) == Elements(order + queue) + {nxt};
  }

  lemma RelaxPaths(edges: seq<Edge>, layer: map<Id, int>, cur: Id, nxt: Id)
    requires LayerPaths(edges, layer) && cur in layer && nxt in layer && Edge(cur, nxt) in edges
    ensures LayerPaths(edges, layer[nxt := Max(layer[nxt], layer[cur] + 1)])
  {
    ExtendPath(edges, cur, nxt, layer[cur]);
    var layer' := layer[nxt := Max(layer[nxt], layer[cur] + 1)];
    forall v | v in layer'
      ensures HasPath(edges, v, layer'[v])
    {
      assert HasPath(edges, v, layer[v]);
    }
  }

  lemma RelaxSupport(edges: seq<Edge>, done: set<Id>, layer: map<Id, int>, cur: Id, nxt: Id)
    requires LayerSupport(edges, done, layer)
    requires cur in done && cur in layer && nxt in layer && nxt !in done && Edge(cur, nxt) in edges
    ensures LayerSupport(edges, done, layer[nxt := Max(layer[nxt], layer[cur] + 1)])
  {
    var layer' := layer[nxt := Max(layer[nxt], layer[cur] + 1)];
    forall v | v in layer'
      ensures Supported(edges, done, layer', v)
    {
      assert Supported(edges, done, layer, v);
    }
  }

  lemma RelaxEdges(edges: seq<Edge>, order: seq<Id>, left: seq<Id>, layer: map<Id, int>)
    requires Within(edges, layer.Keys) && LayerEdges(edges, order, left, layer)
    requires order != [] && left != [] && left[0] !in order
    requires order[|order| - 1] in layer && left[0] in layer
    ensures LayerEdges(edges, order, left[1..], layer[left[0] := Max(layer[left[0]], layer[order[|order| - 1]] + 1)])
  {
    var cur, nxt := order[|order| - 1], left[0];
    var layer' := layer[nxt := Max(layer[nxt], layer[cur] + 1)];
    forall e | e in edges
      ensures Rightward(order, left[1..], layer', e)
    {
      assert Rightward(order, left, layer, e);
      assert e.dst in left ==> e.dst == nxt || e.dst in left[1..];
    }
  }

  lemma Relax(g: Graph, order: seq<Id>, queue: seq<Id>, left: seq<Id>,
              indeg: map<Id, int>, layer: map<Id, int>)
    requires Inv(g, order, queue, left, indeg, layer)
    requires order != [] && left != [] && Edge(order[|order| - 1], left[0]) in g.edges
    ensures var cur, nxt := order[|order| - 1], left[0];
            && cur in layer && nxt in layer && nxt in indeg && indeg[nxt] >= 1 && nxt !in order
            && var layer' := layer[nxt := Max(layer[nxt], layer[cur] + 1)];
               var indeg' := indeg[nxt := Max(0, indeg[nxt] - 1)];
               var queue' := if indeg'[nxt] == 0 then queue + [nxt] else queue;
               Inv(g, order, queue', left[1..], indeg', layer')
  {
    var cur, nxt := order[|order| - 1], left[0];
    assert cur in Elements(order) && cur in Elements(order + queue);
    RelaxQueue(g.edges, order, queue, left, indeg);
    RelaxPaths(g.edges, layer, cur, nxt);
    RelaxSupport(g.edges, Elements(order), layer, cur, nxt);
    RelaxEdges(g.edges, order, left, layer);
    RelaxBounds(order, layer, cur, nxt);
  }

  lemma RelaxBounds(order: seq<Id>, layer: map<Id, int>, cur: Id, nxt: Id)
    requires LayerBounds(order, layer) && cur in order && cur in layer && nxt in layer && nxt !in order
    ensures LayerBounds(order, layer[nxt := Max(layer[nxt], layer[cur] + 1)])
  {
    var layer' := layer[nxt := Max(layer[nxt], layer[cur] + 1)];
    forall v | v in layer'
      ensures LayerBound(order, layer', v)
    {
      assert LayerBound(order, layer, v) && LayerBound(order, layer, cur);
    }
  }

  function Max(a: int, b: int): int {
    if a >= b then a else b
  }

  lemma Finish(g: Graph, order: seq<Id>, indeg: map<Id, int>, layer: map<Id, int>)
    requires Distinct(g.nodes) && Inv(g, order, [], [], indeg, layer)
    ensures Layered(g, order, layer)
    ensures |order| <= |g.nodes|
  {
    assert order + [] == order;
    DistinctFits(order, g.nodes);
    forall v | v in g.nodes
      ensures v in order <==> AllPredecessorsIn(g.edges, v, Elements(order))
    {
      InDegreePositive(g.edges, v, Elements(order));
      assert NodeInv(g.edges, order, [], [], indeg, v);
    }
    forall e | e in g.edges && e.src in order
      ensures layer[e.src] < layer[e.dst]
    {
      assert Rightward(order, [], layer, e);
    }
    forall v | v in layer
      ensures 0 <= layer[v] < |g.nodes|
    {
      assert LayerBound(order, layer, v);
      assert v !in order ==> v !in Elements(order) && v in Elements(g.nodes);
    }
  }

  // ---- What the result means ----

  /** A dequeued node's layer bounds every path into it. */
  lemma {:induction false} DequeuedBoundsPaths(g: Graph, order: seq<Id>, layer: map<Id, int>, p: seq<Id>)
    requires WellFormed(g) && Layered(g, order, layer)
    requires IsPath(g.edges, p) && p[|p| - 1] in order
    ensures p[|p| - 1] in layer && |p| <= layer[p[|p| - 1]] + 1
    ensures forall x :: x in p ==> x in order
  {
    var n := |p| - 1;
    assert p[n] in Elements(order);
    if n > 0 {
      var front := p[..n];
      SubPath(g.edges, p, 0, n);
      assert Edge(p[n - 1], p[n]) in g.edges;
      assert AllPredecessorsIn(g.edges, p[n], Elements(order));
      DequeuedBoundsPaths(g, order, layer, front);
      assert p == front + [p[n]];
    }
  }

  /** The layer of a dequeued node is the length of a longest path ending there. */
  lemma DequeuedIsLongestPath(g: Graph, order: seq<Id>, layer: map<Id, int>, v: Id)
    requires WellFormed(g) && Layered(g, order, layer) && v in order
    ensures v in layer && LongestPathTo(g.edges, v, layer[v])
  {
    assert v in Elements(order);
    forall p | IsPathTo(g.edges, p, v)
      ensures |p| <= layer[v] + 1
    {
      DequeuedBoundsPaths(g, order, layer, p);
    }
  }

  /** Along a path of dequeued nodes layers strictly increase. */
  lemma {:induction false} LayersIncrease(g: Graph, order: seq<Id>, layer: map<Id, int>, p: seq<Id>, i: nat, j: nat)
    requires WellFormed(g) && Layered(g, order, layer)
    requires IsPath(g.edges, p) && forall x :: x in p ==> x in order && x in layer
    requires i < j < |p|
    ensures layer[p[i]] < layer[p[j]]
    decreases j
  {
    assert Edge(p[j - 1], p[j]) in g.edges;
    if i < j - 1 {
      LayersIncrease(g, order, layer, p, i, j - 1);
    }
  }

  /** A stuck node has a stuck predecessor, so a stuck path of any length leads into it. */
  lemma {:induction false} StuckPath(g: Graph, order: seq<Id>, layer: map<Id, int>, v: Id, n: nat) returns (p: seq<Id>)
    requires WellFormed(g) && Layered(g, order, layer) && v in g.nodes && v !in order
    ensures IsPathTo(g.edges, p, v) && |p| == n + 1
    ensures forall x :: x in p ==> x in g.nodes
    decreases n
  {
    if n == 0 {
      p := [v];
    } else {
      assert !AllPredecessorsIn(g.edges, v, Elements(order));
      var e :| e in g.edges && e.dst == v && e.src !in order;
      var q := StuckPath(g, order, layer, e.src, n - 1);
      p := q + [v];
    }
  }

  /** The nodes the loop never dequeues are exactly those on a cycle or reachable from one. */
  lemma StuckIffDownstreamOfCycle(g: Graph, order: seq<Id>, layer: map<Id, int>, v: Id)
    requires WellFormed(g) && Layered(g, order, layer) && v in g.nodes
    ensures v !in order <==> DownstreamOfCycle(g.edges, v)
  {
    if v !in order {
      var p := StuckPath(g, order, layer, v, |g.nodes|);
      DistinctCount(g.nodes);
      LongListRepeats(p, Elements(g.nodes));
    } else if DownstreamOfCycle(g.edges, v) {
      var p :| IsPathTo(g.edges, p, v) && Revisits(p);
      DequeuedBoundsPaths(g, order, layer, p);
      assert forall x :: x in p ==> x in Elements(order);
      var i, j :| 0 <= i < j < |p| && p[i] == p[j];
      LayersIncrease(g, order, layer, p, i, j);
    }
  }

  /** A path to v whose earlier nodes were all dequeued. */
  ghost predicate DequeuedPathTo(edges: seq<Edge>, order: seq<Id>, p: seq<Id>, v: Id) {
    IsPathTo(edges, p, v) && forall x :: x in p[..|p| - 1] ==> x in order
  }

  lemma DequeuedPathBound(g: Graph, order: seq<Id>, layer: map<Id, int>, p: seq<Id>, v: Id)
    requires WellFormed(g) && Layered(g, order, layer) && v in layer && DequeuedPathTo(g.edges, order, p, v)
    ensures |p| <= layer[v] + 1
  {
    var n := |p| - 1;
    if n > 0 {
      var front := p[..n];
      SubPath(g.edges, p, 0, n);
      assert Edge(p[n - 1], p[n]) in g.edges;
      assert front[n - 1] in front;
      DequeuedBoundsPaths(g, order, layer, front);
    }
  }

  lemma DequeuedPathExists(g: Graph, order: seq<Id>, layer: map<Id, int>, v: Id) returns (p: seq<Id>)
    requires WellFormed(g) && Layered(g, order, layer) && v in layer
    ensures DequeuedPathTo(g.edges, order, p, v) && |p| == layer[v] + 1
  {
    assert Supported(g.edges, Elements(order), layer, v);
    if layer[v] == 0 {
      p := [v];
    } else {
      var u :| u in Elements(order) && u in layer && Edge(u, v) in g.edges && layer[v] == layer[u] + 1;
      assert HasPath(g.edges, u, layer[u]);
      var q :| IsPathTo(g.edges, q, u) && |q| == layer[u] + 1;
      DequeuedBoundsPaths(g, order, layer, q);
      p := q + [v];
      assert p[..|p| - 1] == q;
    }
  }

  /** On any graph and for any node, visited or stuck: its layer is the number of edges of a longest path
      to it whose earlier nodes were all visited. */
  lemma LayerIsLongestDequeuedPath(g: Graph, order: seq<Id>, layer: map<Id, int>, v: Id)
    requires WellFormed(g) && Layered(g, order, layer) && v in g.nodes
    ensures v in layer
    ensures exists p :: DequeuedPathTo(g.edges, order, p, v) && |p| == layer[v] + 1
    ensures forall p :: DequeuedPathTo(g.edges, order, p, v) ==> |p| <= layer[v] + 1
  {
    assert v in Elements(g.nodes);
    var p := DequeuedPathExists(g, order, layer, v);
    forall q | DequeuedPathTo(g.edges, order, q, v)
      ensures |q| <= layer[v] + 1
    {
      DequeuedPathBound(g, order, layer, q, v);
    }
  }

  /** All nodes are dequeued exactly when the graph has no cycle. */
  lemma AllDequeuedIffAcyclic(g: Graph, order: seq<Id>, layer: map<Id, int>)
    requires WellFormed(g) && Layered(g, order, layer)
    ensures |order| == |g.nodes| <==> Acyclic(g.edges)
    ensures |order| == |g.nodes| <==> forall v :: v in g.nodes ==> v in order
  {
    DistinctFits(order, g.nodes);
    if |order| == |g.nodes| {
      forall v | v in g.nodes
        ensures v in order
      {
        assert v in Elements(order);
      }
      forall p | IsPath(g.edges, p) && |p| >= 2
        ensures p[0] != p[|p| - 1]
      {
        assert Edge(p[|p| - 2], p[|p| - 1]) in g.edges;
        StuckIffDownstreamOfCycle(g, order, layer, p[|p| - 1]);
        if p[0] == p[|p| - 1] {
          assert Revisits(p);
          assert IsPathTo(g.edges, p, p[|p| - 1]);
        }
      }
    } else if v :| v in g.nodes && v !in order {
      StuckIffDownstreamOfCycle(g, order, layer, v);
      var p :| IsPathTo(g.edges, p, v) && Revisits(p);
      RevisitMakesCycle(g.edges, p);
    } else {
      assert Elements(order) == Elements(g.nodes);
      DistinctCount(order);
      DistinctCount(g.nodes);
    }
  }

  /** On acyclic graphs every layer is a longest-path length; and every edge points strictly
      rightward exactly on the acyclic graphs. */
  lemma RightwardIffAcyclic(g: Graph, order: seq<Id>, layer: map<Id, int>)
    requires WellFormed(g) && Layered(g, order, layer)
    ensures Acyclic(g.edges) <==>
            forall e :: e in g.edges ==> e.src in layer && e.dst in layer && layer[e.src] < layer[e.dst]
    ensures Acyclic(g.edges) ==> forall v :: v in layer ==> LongestPathTo(g.edges, v, layer[v])
  {
    AllDequeuedIffAcyclic(g, order, layer);
    if Acyclic(g.edges) {
      forall v | v in layer
        ensures LongestPathTo(g.edges, v, layer[v])
      {
        DequeuedIsLongestPath(g, order, layer, v);
      }
    } else {
      var p :| IsPath(g.edges, p) && |p| >= 2 && p[0] == p[|p| - 1];
      if forall e :: e in g.edges ==> e.src in layer && e.dst in layer && layer[e.src] < layer[e.dst] {
        RightwardPath(g.edges, layer, p);
      }
    }
  }

  lemma {:induction false} RightwardPath(edges: seq<Edge>, layer: map<Id, int>, p: seq<Id>)
    requires forall e :: e in edges ==> e.src in layer && e.dst in layer && layer[e.src] < layer[e.dst]
    requires IsPath(edges, p) && |p| >= 2
    ensures p[0] in layer && p[|p| - 1] in layer && layer[p[0]] < layer[p[|p| - 1]]
  {
    var n := |p| - 1;
    assert Edge(p[n - 1], p[n]) in edges;
    if n > 1 {
      SubPath(edges, p, 0, n);
      RightwardPath(edges, layer, p[..n]);
    }
  }

  // ---- The loop itself ----

  ghost predicate AdjacentAt(edges: seq<Edge>, indeg: map<Id, int>, outEdges: map<Id, seq<Id>>, v: Id)
    requires v in indeg && v in outEdges
  {
    indeg[v] == InDegree(edges, v, {}) && outEdges[v] == Successors(edges, v)
  }

  lemma OneMoreEdge(edges: seq<Edge>, k: nat, v: Id)
    requires k < |edges|
    ensures InDegree(edges[..k + 1], v, {}) == InDegree(edges[..k], v, {}) + (if edges[k].dst == v then 1 else 0)
    ensures Successors(edges[..k + 1], v)
         == Successors(edges[..k], v) + (if edges[k].src == v then [edges[k].dst] else [])
  {
    assert edges[..k + 1][..k] == edges[..k];
  }

  /** In-degrees and adjacency lists, edge by edge. */
  method BuildAdjacency(g: Graph) returns (indeg: map<Id, int>, outEdges: map<Id, seq<Id>>)
    requires Within(g.edges, Elements(g.nodes))
    ensures indeg.Keys == outEdges.Keys == Elements(g.nodes)
    ensures forall v :: v in indeg ==> AdjacentAt(g.edges, indeg, outEdges, v)
  {
    indeg := map v | v in Elements(g.nodes) :: 0;
    outEdges := map v | v in Elements(g.nodes) :: [];
    for k := 0 to |g.edges|
      invariant indeg.Keys == outEdges.Keys == Elements(g.nodes)
      invariant forall v {:trigger AdjacentAt(g.edges[..k], indeg, outEdges, v)} ::
        v in indeg ==> AdjacentAt(g.edges[..k], indeg, outEdges, v)
    {
      var e := g.edges[k];
      assert e in g.edges;
      ghost var indeg0, outEdges0 := indeg, outEdges;
      indeg := indeg[e.dst := indeg[e.dst] + 1];
      outEdges := outEdges[e.src := outEdges[e.src] + [e.dst]];
      forall v | v in indeg
        ensures AdjacentAt(g.edges[..k + 1], indeg, outEdges, v)
      {
        assert AdjacentAt(g.edges[..k], indeg0, outEdges0, v);
        OneMoreEdge(g.edges, k, v);
      }
    }
    assert g.edges[..|g.edges|] == g.edges;
  }

  /** The nodes without in-edges, in node order. */
  method Roots(nodes: seq<Id>, indeg: map<Id, int>) returns (queue: seq<Id>)
    requires Distinct(nodes) && Elements(nodes) <= indeg.Keys
    ensures Distinct(queue)
    ensures forall v :: v in queue <==> v in nodes && indeg[v] == 0
  {
    queue := [];
    for k := 0 to |nodes|
      invariant Distinct(queue)
      invariant forall v :: v in queue <==> v in nodes[..k] && indeg[v] == 0
    {
      assert nodes[k] in Elements(nodes);
      assert nodes[k] !in nodes[..k];
      if indeg[nodes[k]] == 0 {
        queue := queue + [nodes[k]];
      }
      assert nodes[..k + 1] == nodes[..k] + [nodes[k]];
    }
    assert nodes[..|nodes|] == nodes;
  }

  /** The inner loop: relax every out-edge of the node just dequeued, queueing the nodes whose
      last remaining in-edge this was. */
  method RelaxSuccessors(g: Graph, ghost order: seq<Id>, cur: Id, out: seq<Id>, layer0: map<Id, int>,
                         indeg0: map<Id, int>, queue0: seq<Id>)
    returns (layer: map<Id, int>, indeg: map<Id, int>, queue: seq<Id>, ghost relaxed: seq<Edge>)
    requires order != [] && cur == order[|order| - 1] && cur in layer0
    requires out == Successors(g.edges, cur)
    requires Inv(g, order, queue0, out, indeg0, layer0)
    ensures Inv(g, order, queue, [], indeg, layer)
    ensures relaxed == Fan(cur, out)
  {
    layer, indeg, queue, relaxed := layer0, indeg0, queue0, [];
    var curLayer := layer[cur];
    assert out[0..] == out;
    for k := 0 to |out|
      invariant Inv(g, order, queue, out[k..], indeg, layer)
      invariant cur in layer && layer[cur] == curLayer
      invariant relaxed == Fan(cur, out[..k])
    {
      var nxt := out[k];
      assert out[k..][0] == nxt && out[k..][1..] == out[k + 1..];
      SuccessorsExact(g.edges, cur, nxt);
      Relax(g, order, queue, out[k..], indeg, layer);
      layer := layer[nxt := Max(layer[nxt], curLayer + 1)];
      indeg := indeg[nxt := Max(0, indeg[nxt] - 1)];
      if indeg[nxt] == 0 {
        queue := queue + [nxt];
      }
      relaxed := relaxed + [Edge(cur, nxt)];
      assert out[..k + 1][..k] == out[..k];
    }
    assert out[..|out|] == out && out[|out|..] == [];
  }

  /** The outer loop. `visited` counts dequeues; `order` and `relaxed` record the dequeued nodes
      and the relaxed edges for the specification only. */
  method DrainQueue(g: Graph, outEdges: map<Id, seq<Id>>, layer0: map<Id, int>, indeg0: map<Id, int>, queue0: seq<Id>)
    returns (layer: map<Id, int>, visited: nat, ghost order: seq<Id>, ghost relaxed: seq<Edge>)
    requires Distinct(g.nodes) && Inv(g, [], queue0, [], indeg0, layer0)
    requires outEdges.Keys == Elements(g.nodes)
    requires forall v {:trigger outEdges[v]} :: v in outEdges ==> outEdges[v] == Successors(g.edges, v)
    ensures Layered(g, order, layer) && |order| <= |g.nodes|
    ensures visited == |order|
    ensures relaxed == EdgesFrom(g.edges, order)
  {
    var queue, indeg := queue0, indeg0;
    layer, visited, order, relaxed := layer0, 0, [], [];
    while queue != []
      invariant Inv(g, order, queue, [], indeg, layer)
      invariant visited == |order| <= |g.nodes|
      invariant relaxed == EdgesFrom(g.edges, order)
      decreases |g.nodes| - visited
    {
      QueueFits(g, order, queue, [], indeg);
      Dequeue(g, order, queue, indeg, layer);
      var cur := queue[0];
      assert cur in Elements(order + queue);
      queue := queue[1..];
      visited := visited + 1;
      ghost var order0 := order;
      order := order + [cur];
      ghost var fan;
      layer, indeg, queue, fan := RelaxSuccessors(g, order, cur, outEdges[cur], layer, indeg, queue);
      relaxed := relaxed + fan;
      assert order[..|order| - 1] == order0;
    }
    Finish(g, order, indeg, layer);
  }

  /** The whole layering pass. */
  method ComputeLayers(g: Graph) returns (layer: map<Id, int>, visited: nat, ghost order: seq<Id>, ghost relaxed: seq<Edge>)
    requires WellFormed(g)
    ensures Layered(g, order, layer)
    ensures visited == |order|
    ensures visited == |g.nodes| <==> Acyclic(g.edges)
    ensures Acyclic(g.edges) ==> forall v :: v in layer ==> LongestPathTo(g.edges, v, layer[v])
    ensures relaxed == EdgesFrom(g.edges, order)
  {
    assert Within(g.edges, Elements(g.nodes));
    var indeg, outEdges := BuildAdjacency(g);
    assert forall v :: v in indeg ==> AdjacentAt(g.edges, indeg, outEdges, v);
    var queue := Roots(g.nodes, indeg);
    var layer0 := map v | v in Elements(g.nodes) :: 0;
    Start(g, queue, indeg, layer0);
    layer, visited, order, relaxed := DrainQueue(g, outEdges, layer0, indeg, queue);
    AllDequeuedIffAcyclic(g, order, layer);
    RightwardIffAcyclic(g, order, layer);
  }

  /** The edges u -> v for each v of a list. */
  ghost function Fan(u: Id, targets: seq<Id>): seq<Edge> {
    if targets == [] then [] else Fan(u, targets[..|targets| - 1]) + [Edge(u, targets[|targets| - 1])]
  }

  /** The edge occurrences leaving the listed nodes, node by node, each occurrence once. */
  ghost function EdgesFrom(edges: seq<Edge>, order: seq<Id>): seq<Edge> {
    if order == [] then []
    else
      var last := order[|order| - 1];
      EdgesFrom(edges, order[..|order| - 1]) + Fan(last, Successors(edges, last))
  }

  lemma {:induction false} FanCount(u: Id, targets: seq<Id>, e: Edge)
    ensures multiset(Fan(u, targets))[e] == if e.src == u then multiset(targets)[e.dst] else 0
  {
    if targets != [] {
      var front, last := targets[..|targets| - 1], targets[|targets| - 1];
      FanCount(u, front, e);
      assert targets == front + [last];
    }
  }

  lemma {:induction false} SuccessorCount(edges: seq<Edge>, u: Id, v: Id)
    ensures multiset(Successors(edges, u))[v] == multiset(edges)[Edge(u, v)]
  {
    if edges != [] {
      var front, last := edges[..|edges| - 1], edges[|edges| - 1];
      SuccessorCount(front, u, v);
      assert edges == front + [last];
    }
  }

  /** Every edge occurrence leaving a dequeued node is relaxed exactly once, all others never. */
  lemma {:induction false} RelaxedOnce(edges: seq<Edge>, order: seq<Id>, e: Edge)
    requires Distinct(order)
    ensures multiset(EdgesFrom(edges, order))[e] == if e.src in order then multiset(edges)[e] else 0
  {
    if order != [] {
      var front, last := order[..|order| - 1], order[|order| - 1];
      assert order == front + [last];
      RelaxedOnce(edges, front, e);
      FanCount(last, Successors(edges, last), e);
      SuccessorCount(edges, last, e.dst);
    }
  }
}
