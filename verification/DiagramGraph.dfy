/** Directed multigraphs of diagram nodes: paths, cycles, in-degrees.

    These are the independent notions against which the layering loop of
    `mcp_servers/browser/apps/diagram.py` is judged. Nothing here mentions a queue. */
module DiagramGraph {
  import opened StableSort

  type Id = string

  datatype Edge = Edge(src: Id, dst: Id)

  datatype Graph = Graph(nodes: seq<Id>, edges: seq<Edge>)

  /** What normalisation leaves behind: distinct node ids, and edges between known nodes.
      Self-loops, parallel edges and cycles are all allowed. */
  ghost predicate WellFormed(g: Graph) {
    && Distinct(g.nodes)
    && forall e :: e in g.edges ==> e.src in g.nodes && e.dst in g.nodes
  }

  /** A walk along edges; it has at least one node. */
  ghost predicate IsPath(edges: seq<Edge>, p: seq<Id>) {
    && |p| >= 1
    && forall i, j :: 0 <= i < j < |p| && j == i + 1 ==> Edge(p[i], p[j]) in edges
  }

  ghost predicate IsPathTo(edges: seq<Edge>, p: seq<Id>, v: Id) {
    IsPath(edges, p) && p[|p| - 1] == v
  }

  /** Some path with exactly n edges ends at v. */
  ghost predicate HasPath(edges: seq<Edge>, v: Id, n: int) {
    exists p :: IsPathTo(edges, p, v) && |p| == n + 1
  }

  /** n is the number of edges on a longest path ending at v. */
  ghost predicate LongestPathTo(edges: seq<Edge>, v: Id, n: int) {
    && HasPath(edges, v, n)
    && forall p :: IsPathTo(edges, p, v) ==> |p| <= n + 1
  }

  /** No closed walk with at least one edge. */
  ghost predicate Acyclic(edges: seq<Edge>) {
    forall p :: IsPath(edges, p) && |p| >= 2 ==> p[0] != p[|p| - 1]
  }

  ghost predicate Revisits(p: seq<Id>) {
    exists i, j :: 0 <= i < j < |p| && p[i] == p[j]
  }

  ghost predicate AllPredecessorsIn(edges: seq<Edge>, v: Id, done: set<Id>) {
    forall e :: e in edges && e.dst == v ==> e.src in done
  }

  /** v lies on a cycle or can be reached from one. */
  ghost predicate DownstreamOfCycle(edges: seq<Edge>, v: Id) {
    exists p :: IsPathTo(edges, p, v) && Revisits(p)
  }

  /** Destinations of the edges leaving u, in edge order, one entry per edge. */
  function Successors(edges: seq<Edge>, u: Id): (s: seq<Id>) {
    if edges == [] then []
    else
      var last := edges[|edges| - 1];
      var before := Successors(edges[..|edges| - 1], u);
      if last.src == u then before + [last.dst] else before
  }

  /** Number of edges entering v whose source is outside `done`. */
  function InDegree(edges: seq<Edge>, v: Id, done: set<Id>): (n: nat) {
    if edges == [] then 0
    else
      var last := edges[|edges| - 1];
      InDegree(edges[..|edges| - 1], v, done) + (if last.dst == v && last.src !in done then 1 else 0)
  }

  function Occurrences(s: seq<Id>, v: Id): (n: nat)
    ensures n > 0 <==> v in s
  {
    if s == [] then 0
    else (if s[0] == v then 1 else 0) + Occurrences(s[1..], v)
  }

  lemma {:induction false} OccurrencesAppend(s: seq<Id>, t: seq<Id>, v: Id)
    ensures Occurrences(s + t, v) == Occurrences(s, v) + Occurrences(t, v)
  {
    if s == [] {
      assert s + t == t;
    } else {
      assert (s + t)[1..] == s[1..] + t;
      OccurrencesAppend(s[1..], t, v);
    }
  }

  /** Finishing u removes exactly the edges u -> v from v's remaining in-degree. */
  lemma {:induction false} InDegreeAfter(edges: seq<Edge>, v: Id, done: set<Id>, u: Id)
    requires u !in done
    ensures InDegree(edges, v, done)
         == InDegree(edges, v, done + {u}) + Occurrences(Successors(edges, u), v)
  {
    if edges != [] {
      var front, last := edges[..|edges| - 1], edges[|edges| - 1];
      InDegreeAfter(front, v, done, u);
      OccurrencesAppend(Successors(front, u), [last.dst], v);
    }
  }

  lemma {:induction false} InDegreePositive(edges: seq<Edge>, v: Id, done: set<Id>)
    ensures InDegree(edges, v, done) == 0 <==> AllPredecessorsIn(edges, v, done)
  {
    if edges != [] {
      var front, last := edges[..|edges| - 1], edges[|edges| - 1];
      InDegreePositive(front, v, done);
      assert edges == front + [last];
    }
  }

  lemma {:induction false} SuccessorsExact(edges: seq<Edge>, u: Id, v: Id)
    ensures v in Successors(edges, u) <==> Edge(u, v) in edges
  {
    if edges != [] {
      var front, last := edges[..|edges| - 1], edges[|edges| - 1];
      assert edges == front + [last];
      SuccessorsExact(front, u, v);
    }
  }

  lemma ExtendPath(edges: seq<Edge>, u: Id, v: Id, n: int)
    requires HasPath(edges, u, n) && Edge(u, v) in edges
    ensures HasPath(edges, v, n + 1)
  {
    var p :| IsPathTo(edges, p, u) && |p| == n + 1;
    assert IsPathTo(edges, p + [v], v);
  }

  lemma SubPath(edges: seq<Edge>, p: seq<Id>, lo: nat, hi: nat)
    requires IsPath(edges, p) && lo < hi <= |p|
    ensures IsPath(edges, p[lo..hi])
  {
  }

  /** A path that comes back to a node contains a closed walk. */
  lemma RevisitMakesCycle(edges: seq<Edge>, p: seq<Id>)
    requires IsPath(edges, p) && Revisits(p)
    ensures !Acyclic(edges)
  {
    var i, j :| 0 <= i < j < |p| && p[i] == p[j];
    SubPath(edges, p, i, j + 1);
    var q := p[i..j + 1];
    assert q[0] == q[|q| - 1];
  }

  /** Pigeonhole: a list of known nodes longer than the node list repeats a node. */
  lemma {:induction false} LongListRepeats(p: seq<Id>, nodes: set<Id>)
    requires forall x :: x in p ==> x in nodes
    requires |p| > |nodes|
    ensures Revisits(p)
    decreases |nodes|
  {
    var x := p[0];
    if j :| 1 <= j < |p| && p[j] == x {
      assert p[0] == p[j];
    } else {
      LongListRepeats(p[1..], nodes - {x});
      var i, j :| 0 <= i < j < |p[1..]| && p[1..][i] == p[1..][j];
      assert p[i + 1] == p[j + 1];
    }
  }

  lemma {:induction false} DistinctCount(nodes: seq<Id>)
    requires Distinct(nodes)
    ensures |Elements(nodes)| == |nodes|
  {
    if nodes == [] {
      assert Elements(nodes) == {};
    } else {
      var rest := nodes[1..];
      DistinctCount(rest);
      assert Elements(nodes) == Elements(rest) + {nodes[0]};
      assert nodes[0] !in rest;
    }
  }
}
