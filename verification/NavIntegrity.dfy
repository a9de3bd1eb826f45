/** When the pruned navigation graph keeps its references intact. */
module NavIntegrity {
  import opened Wire
  import opened Ranking
  import opened NavGraph
  import SetFacts
  import StableSort

  /** The current page is a node and every edge joins two nodes. */
  ghost predicate WellLinked(g: Graph) {
    && (g.current.Some? ==> g.current.value in g.nodes)
    && AllAttached(g.edges, g.nodes)
  }

  ghost predicate AllAttached(edges: map<string, Edge>, nodes: map<string, Node>) {
    forall id :: id in edges ==> Attached(edges[id], nodes)
  }

  /** The nodes an observation links to. */
  function Targets(n: Naming, links: seq<Option<Link>>): set<string> {
    if links == [] then {}
    else
      var last := links[|links| - 1];
      Targets(n, links[..|links| - 1]) + (if last.Some? then {n.nodeId(last.value.to)} else {})
  }

  function Mentioned(n: Naming, o: Observation): set<string> {
    Targets(n, LinksOf(o))
  }

  /** The current page is among the keepN best-ranked nodes once the observation is recorded. */
  ghost predicate Survives(g: Graph, n: Naming, o: Observation) {
    var ts, cur := NodeTimes(Recorded(g, n, o).nodes), n.nodeId(o.url);
    cur in ts && |Ahead(ts, cur)| < KeepN(o.limits)
  }

  // ---- Recording ----

  function Visited(g: Graph, n: Naming, o: Observation): Graph {
    Recorded(g, n, o.(links := []))
  }

  lemma VisitThenLinks(g: Graph, n: Naming, o: Observation)
    ensures var g1, cur := Visited(g, n, o), n.nodeId(o.url);
            && Recorded(g, n, o) == AddLinks(g1, n, cur, LinksOf(o), o.now)
            && g1.current == Some(cur) && g1.nodes.Keys == g.nodes.Keys + {cur} && g1.nodes[cur].lastSeenAt == o.now
            && (forall id :: id in g.nodes && id != cur ==> g1.nodes[id] == g.nodes[id])
  {
    var cur := n.nodeId(o.url);
    assert Visit(g.nodes, cur, o) == Visit(g.nodes, cur, o.(links := []));
  }

  lemma VisitAttaches(g: Graph, n: Naming, o: Observation)
    requires WellLinked(g)
    ensures AllAttached(Visited(g, n, o).edges, Visited(g, n, o).nodes)
  {
    var g1 := Visited(g, n, o);
    forall id | id in g1.edges
      ensures Attached(g1.edges[id], g1.nodes)
    {
      if id in g.edges {
        assert Attached(g.edges[id], g.nodes);
      }
    }
  }

  lemma LinkAttaches(g: Graph, n: Naming, cur: string, link: Option<Link>, now: int)
    requires cur in g.nodes && link.Some?
    ensures var g' := AddLink(g, n, cur, link, now); AllAttached(g.edges, g.nodes) ==> AllAttached(g'.edges, g'.nodes)
  {
    var g' := AddLink(g, n, cur, link, now);
    if AllAttached(g.edges, g.nodes) {
      forall id | id in g'.edges
        ensures Attached(g'.edges[id], g'.nodes)
      {
        if id in g.edges {
          assert Attached(g.edges[id], g.nodes);
        }
      }
    }
  }

  /** Links add their targets as nodes and attach their edges. */
  lemma {:induction false} LinksAttach(g: Graph, n: Naming, cur: string, links: seq<Option<Link>>, now: int)
    requires cur in g.nodes
    ensures var g' := AddLinks(g, n, cur, links, now);
            && g'.current == g.current && g'.nodes.Keys == g.nodes.Keys + Targets(n, links)
            && (AllAttached(g.edges, g.nodes) ==> AllAttached(g'.edges, g'.nodes))
  {
    if links != [] {
      var front, last := links[..|links| - 1], links[|links| - 1];
      LinksAttach(g, n, cur, front, now);
      if last.Some? {
        LinkAttaches(AddLinks(g, n, cur, front, now), n, cur, last, now);
      }
    }
  }

  /** After recording the current page and all link targets are nodes, and if the graph was well linked
      every edge joins two nodes. */
  lemma RecordedAttached(g: Graph, n: Naming, o: Observation)
    ensures var r, cur := Recorded(g, n, o), n.nodeId(o.url);
            && r.current == Some(cur) && r.nodes.Keys == g.nodes.Keys + {cur} + Mentioned(n, o)
            && (WellLinked(g) ==> AllAttached(r.edges, r.nodes))
  {
    VisitThenLinks(g, n, o);
    if WellLinked(g) {
      VisitAttaches(g, n, o);
    }
    LinksAttach(Visited(g, n, o), n, n.nodeId(o.url), LinksOf(o), o.now);
  }

  // ---- Pruning ----

  /** No more is kept than allowed; every kept node ranks before every dropped one; and of the edges whose ends were kept, every
      kept one ranks before every dropped one. */
  lemma KeptRankFirst(g: Graph, g': Graph, keepN: nat, keepE: nat)
    requires Pruned(g, g', keepN, keepE)
    ensures |g'.nodes| <= keepN && |g'.edges| <= keepE
    ensures forall a, b :: a in g'.nodes && b in g.nodes && b !in g'.nodes ==>
              g'.nodes[a].lastSeenAt > g.nodes[b].lastSeenAt || (g'.nodes[a].lastSeenAt == g.nodes[b].lastSeenAt && Less(a, b))
    ensures forall a, b :: a in g'.edges && b in g.edges && b !in g'.edges && Attached(g.edges[b], g'.nodes) ==>
              g'.edges[a].lastSeenAt > g.edges[b].lastSeenAt || (g'.edges[a].lastSeenAt == g.edges[b].lastSeenAt && Less(a, b))
  {
    assert |g'.nodes| == |g'.nodes.Keys| && |g'.edges| == |g'.edges.Keys|;
    forall a, b | a in g'.nodes && b in g.nodes && b !in g'.nodes
      ensures g'.nodes[a].lastSeenAt > g.nodes[b].lastSeenAt || (g'.nodes[a].lastSeenAt == g.nodes[b].lastSeenAt && Less(a, b))
    {
      assert Before(NodeTimes(g.nodes), a, b);
    }
    var edges := if |g.nodes| > keepN then DropDangling(g.edges, g'.nodes) else g.edges;
    forall a, b | a in g'.edges && b in g.edges && b !in g'.edges && Attached(g.edges[b], g'.nodes)
      ensures g'.edges[a].lastSeenAt > g.edges[b].lastSeenAt || (g'.edges[a].lastSeenAt == g.edges[b].lastSeenAt && Less(a, b))
    {
      assert b in edges;
      assert Before(EdgeTimes(edges), a, b);
    }
  }

  lemma PruneKeepsAttached(g: Graph, g': Graph, keepN: nat, keepE: nat)
    requires Pruned(g, g', keepN, keepE) && AllAttached(g.edges, g.nodes)
    ensures AllAttached(g'.edges, g'.nodes)
  {
    if |g.nodes| <= keepN {
      assert |NodeTimes(g.nodes)| == |g.nodes| by {
        assert NodeTimes(g.nodes).Keys == g.nodes.Keys;
      }
      AllKept(NodeTimes(g.nodes), g'.nodes.Keys, keepN);
    }
  }

  // ---- The current page ----

  /** A key is among the k best exactly when fewer than k rank before it, however many there are. */
  lemma TopIff(ts: map<string, int>, kept: set<string>, k: nat, x: string)
    requires IsTop(ts, kept, k) && x in ts
    ensures x in kept <==> |Ahead(ts, x)| < k
  {
    if |ts| <= k {
      AllKept(ts, kept, k);
      BeforeTotal(ts, x, x);
      SetFacts.SubsetSize(Ahead(ts, x), ts.Keys - {x});
      assert |ts| == |ts.Keys|;
    } else {
      KeptIff(ts, kept, k, x);
    }
  }

  /** The current page is kept exactly under the condition stated before the pruning. */
  lemma CurrentKeptIff(g: Graph, n: Naming, o: Observation, g': Graph)
    requires Pruned(Recorded(g, n, o), g', KeepN(o.limits), KeepE(o.limits))
    ensures n.nodeId(o.url) in g'.nodes <==> Survives(g, n, o)
  {
    RecordedAttached(g, n, o);
    TopIff(NodeTimes(Recorded(g, n, o).nodes), g'.nodes.Keys, KeepN(o.limits), n.nodeId(o.url));
  }

  /** One observation keeps the graph well linked exactly if its current page is kept. */
  lemma WellLinkedIff(g: Graph, n: Naming, o: Observation, g': Graph)
    requires WellLinked(g) && Pruned(Recorded(g, n, o), g', KeepN(o.limits), KeepE(o.limits))
    ensures WellLinked(g') <==> Survives(g, n, o)
  {
    RecordedAttached(g, n, o);
    CurrentKeptIff(g, n, o, g');
    PruneKeepsAttached(Recorded(g, n, o), g', KeepN(o.limits), KeepE(o.limits));
  }

  // ---- Runs ----

  /** The successive graphs of one tab, each reached by an observation. */
  datatype Trace = Start | Then(before: Trace, o: Observation, g: Graph)

  function Last(t: Trace): Graph {
    if t.Then? then t.g else EMPTY
  }

  ghost predicate IsRun(n: Naming, t: Trace) {
    t.Then? ==> IsRun(n, t.before) && Pruned(Recorded(Last(t.before), n, t.o), t.g, KeepN(t.o.limits), KeepE(t.o.limits))
  }

  ghost predicate AlwaysWellLinked(t: Trace) {
    WellLinked(Last(t)) && (t.Then? ==> AlwaysWellLinked(t.before))
  }

  ghost predicate AlwaysSurvives(n: Naming, t: Trace) {
    t.Then? ==> AlwaysSurvives(n, t.before) && Survives(Last(t.before), n, t.o)
  }

  /** Along any run, whatever its clock and limits, every graph is well linked exactly if every
      observation keeps its current page. */
  lemma {:induction false} RunWellLinkedIff(n: Naming, t: Trace)
    requires IsRun(n, t)
    ensures AlwaysWellLinked(t) <==> AlwaysSurvives(n, t)
  {
    if t.Then? {
      RunWellLinkedIff(n, t.before);
      if AlwaysWellLinked(t.before) {
        WellLinkedIff(Last(t.before), n, t.o, t.g);
      }
    }
  }

  // ---- With an advancing clock ----

  /** The observation's clock is later than anything seen so far. */
  ghost predicate Later(g: Graph, now: int) {
    forall id :: id in g.nodes ==> g.nodes[id].lastSeenAt < now
  }

  ghost predicate NotAfter(nodes: map<string, Node>, now: int) {
    forall id :: id in nodes ==> nodes[id].lastSeenAt <= now
  }

  function Smaller(ids: set<string>, id: string): set<string> {
    set x | x in ids && Less(x, id)
  }

  /** The nodes other than cur whose time is `now` are the link targets. */
  lemma {:induction false} LinksTouch(g: Graph, n: Naming, cur: string, links: seq<Option<Link>>, now: int)
    requires NotAfter(g.nodes, now)
    ensures var nodes := AddLinks(g, n, cur, links, now).nodes;
            && NotAfter(nodes, now) && nodes.Keys == g.nodes.Keys + Targets(n, links)
            && (forall id :: id in Targets(n, links) ==> nodes[id].lastSeenAt == now)
            && (forall id :: id in g.nodes && id !in Targets(n, links) ==> nodes[id] == g.nodes[id])
  {
    if links != [] {
      LinksTouch(g, n, cur, links[..|links| - 1], now);
    }
  }

  /** After recording exactly the current page and the link targets carry the new time. */
  lemma RecordedTimes(g: Graph, n: Naming, o: Observation)
    requires Later(g, o.now)
    ensures var r, cur := Recorded(g, n, o), n.nodeId(o.url);
            && r.nodes.Keys == g.nodes.Keys + {cur} + Mentioned(n, o) && NotAfter(r.nodes, o.now)
            && (forall id :: id in r.nodes ==> (r.nodes[id].lastSeenAt == o.now <==> id == cur || id in Mentioned(n, o)))
  {
    VisitThenLinks(g, n, o);
    LinksTouch(Visited(g, n, o), n, n.nodeId(o.url), LinksOf(o), o.now);
  }

  /** Ahead of the current page are only link targets with smaller ids. */
  lemma AheadOfCurrent(ts: map<string, int>, cur: string, targets: set<string>, now: int)
    requires cur in ts && targets <= ts.Keys
    requires forall id :: id in ts ==> ts[id] <= now
    requires forall id :: id in ts ==> (ts[id] == now <==> id == cur || id in targets)
    ensures Ahead(ts, cur) == Smaller(targets, cur)
  {
    LessTotal(cur, cur);
  }

  /** Then the current page is kept exactly when fewer than keepN link targets have ids before its own. */
  lemma SurvivesIff(g: Graph, n: Naming, o: Observation)
    requires Later(g, o.now)
    ensures Survives(g, n, o) <==> |Smaller(Mentioned(n, o), n.nodeId(o.url))| < KeepN(o.limits)
  {
    RecordedTimes(g, n, o);
    AheadOfCurrent(NodeTimes(Recorded(g, n, o).nodes), n.nodeId(o.url), Mentioned(n, o), o.now);
  }

  predicate ClockAdvances(t: Trace) {
    t.Then? && t.before.Then? ==> t.before.o.now < t.o.now && ClockAdvances(t.before)
  }

  ghost predicate AlwaysRoom(n: Naming, t: Trace) {
    t.Then? ==> AlwaysRoom(n, t.before) && |Smaller(Mentioned(n, t.o), n.nodeId(t.o.url))| < KeepN(t.o.limits)
  }

  lemma PrunedNotAfter(g: Graph, n: Naming, o: Observation, g': Graph, keepN: nat, keepE: nat)
    requires Later(g, o.now) && Pruned(Recorded(g, n, o), g', keepN, keepE)
    ensures NotAfter(g'.nodes, o.now)
  {
    RecordedTimes(g, n, o);
  }

  lemma {:induction false} RunIsLater(n: Naming, t: Trace, now: int)
    requires IsRun(n, t) && ClockAdvances(t) && (t.Then? ==> t.o.now < now)
    ensures Later(Last(t), now)
  {
    if t.Then? {
      RunIsLater(n, t.before, t.o.now);
      PrunedNotAfter(Last(t.before), n, t.o, t.g, KeepN(t.o.limits), KeepE(t.o.limits));
    }
  }

  lemma {:induction false} SurvivesIffRoom(n: Naming, t: Trace)
    requires IsRun(n, t) && ClockAdvances(t)
    ensures AlwaysSurvives(n, t) <==> AlwaysRoom(n, t)
  {
    if t.Then? {
      SurvivesIffRoom(n, t.before);
      RunIsLater(n, t.before, t.o.now);
      SurvivesIff(Last(t.before), n, t.o);
    }
  }

  /** Along a run with an advancing clock every graph is well linked exactly if every observation links to
      fewer than keepN pages with ids before its own page's. */
  lemma AdvancingWellLinkedIff(n: Naming, t: Trace)
    requires IsRun(n, t) && ClockAdvances(t)
    ensures AlwaysWellLinked(t) <==> AlwaysRoom(n, t)
  {
    RunWellLinkedIff(n, t);
    SurvivesIffRoom(n, t);
  }

  predicate AlwaysFewTargets(n: Naming, t: Trace) {
    t.Then? ==> AlwaysFewTargets(n, t.before) && |Mentioned(n, t.o)| <= KeepN(t.o.limits) - 1
  }

  lemma {:induction false} FewTargetsLeaveRoom(n: Naming, t: Trace)
    requires AlwaysFewTargets(n, t)
    ensures AlwaysRoom(n, t)
  {
    if t.Then? {
      FewTargetsLeaveRoom(n, t.before);
      SetFacts.SubsetSize(Smaller(Mentioned(n, t.o), n.nodeId(t.o.url)), Mentioned(n, t.o));
    }
  }

  /** Room for the current page beside all link targets always suffices. */
  lemma FewTargetsSuffice(n: Naming, t: Trace)
    requires IsRun(n, t) && ClockAdvances(t) && AlwaysFewTargets(n, t)
    ensures AlwaysWellLinked(t)
  {
    FewTargetsLeaveRoom(n, t);
    AdvancingWellLinkedIff(n, t);
  }

  // ---- Visits ----

  /** How often the page was observed. */
  function TimesObserved(n: Naming, t: Trace, id: string): nat {
    if t.Then? then TimesObserved(n, t.before, id) + (if n.nodeId(t.o.url) == id then 1 else 0) else 0
  }

  /** Pruning never dropped the page's node. */
  predicate NeverDropped(n: Naming, t: Trace, id: string) {
    t.Then? ==> NeverDropped(n, t.before, id) && (id in Recorded(Last(t.before), n, t.o).nodes ==> id in t.g.nodes)
  }

  function VisitsOf(nodes: map<string, Node>, id: string): int {
    if id in nodes then nodes[id].visits else 0
  }

  lemma {:induction false} LinksKeepVisits(g: Graph, n: Naming, cur: string, links: seq<Option<Link>>, now: int, id: string)
    ensures VisitsOf(AddLinks(g, n, cur, links, now).nodes, id) == VisitsOf(g.nodes, id)
  {
    if links != [] {
      LinksKeepVisits(g, n, cur, links[..|links| - 1], now, id);
    }
  }

  lemma RecordedVisits(g: Graph, n: Naming, o: Observation, id: string)
    ensures VisitsOf(Recorded(g, n, o).nodes, id) == VisitsOf(g.nodes, id) + (if n.nodeId(o.url) == id then 1 else 0)
  {
    var cur := n.nodeId(o.url);
    var nodes := Visit(g.nodes, cur, o);
    var edges :=
      if g.current.Some? && g.current.value != cur
      then Traverse(g.edges, n, EdgeKey(g.current.value, cur, "nav", None, None), o.now)
      else g.edges;
    LinksKeepVisits(Graph(nodes, edges, Some(cur)), n, cur, LinksOf(o), o.now, id);
  }

  /** A node counts the observations of its page, all of them unless it was dropped in between;
      link targets that were never observed count none. */
  lemma {:induction false} VisitsCountObservations(n: Naming, t: Trace, id: string)
    requires IsRun(n, t)
    ensures 0 <= VisitsOf(Last(t).nodes, id) <= TimesObserved(n, t, id)
    ensures NeverDropped(n, t, id) ==> VisitsOf(Last(t).nodes, id) == TimesObserved(n, t, id)
  {
    if t.Then? {
      VisitsCountObservations(n, t.before, id);
      RecordedVisits(Last(t.before), n, t.o, id);
    }
  }

  // ---- The condition is needed ----

  function LinksTo(xs: seq<string>): seq<Option<Link>> {
    if xs == [] then [] else LinksTo(xs[..|xs| - 1]) + [Some(Link(xs[|xs| - 1], None, None))]
  }

  /** Page y links to the pages xs. */
  function LinkingPage(y: string, xs: seq<string>, now: int, l: Limits): Observation {
    Observation(y, None, LinksTo(xs), now, l)
  }

  function Ids(n: Naming, xs: seq<string>): seq<string> {
    seq(|xs|, i requires 0 <= i < |xs| => n.nodeId(xs[i]))
  }

  lemma {:induction false} LinkTargets(n: Naming, xs: seq<string>)
    ensures |LinksTo(xs)| == |xs| && Targets(n, LinksTo(xs)) == StableSort.Elements(Ids(n, xs))
  {
    if xs != [] {
      var front := xs[..|xs| - 1];
      LinkTargets(n, front);
      assert Ids(n, xs) == Ids(n, front) + [n.nodeId(xs[|xs| - 1])];
    }
  }

  lemma {:induction false} LinksComeFrom(g: Graph, n: Naming, cur: string, links: seq<Option<Link>>, now: int)
    requires forall id :: id in g.edges ==> g.edges[id].key.src == cur
    ensures forall id :: id in AddLinks(g, n, cur, links, now).edges ==> AddLinks(g, n, cur, links, now).edges[id].key.src == cur
  {
    if links != [] {
      LinksComeFrom(g, n, cur, links[..|links| - 1], now);
    }
  }

  /** The ids are distinct, as many as nodes may be kept, and all before y's. */
  ghost predicate Crowding(n: Naming, y: string, xs: seq<string>, l: Limits) {
    && |xs| == KeepN(l) && |xs| <= MAX_LINKS
    && (forall i, j :: 0 <= i < j < |xs| ==> n.nodeId(xs[i]) != n.nodeId(xs[j]))
    && (forall i :: 0 <= i < |xs| ==> Less(n.nodeId(xs[i]), n.nodeId(y)))
  }

  lemma CrowdingTargets(n: Naming, y: string, xs: seq<string>, l: Limits)
    requires Crowding(n, y, xs, l)
    ensures var o, ids := LinkingPage(y, xs, 0, l), StableSort.Elements(Ids(n, xs));
            Mentioned(n, o) == ids && |ids| == |xs| && n.nodeId(y) !in ids && Smaller(ids, n.nodeId(y)) == ids
  {
    var ids := Ids(n, xs);
    LinkTargets(n, xs);
    LessTotal(n.nodeId(y), n.nodeId(y));
    assert forall i, j :: 0 <= i < j < |ids| ==> ids[i] != ids[j];
    PrefixSize(ids, |xs|);
    assert ids[..|xs|] == ids;
    forall id | id in ids
      ensures Less(id, n.nodeId(y))
    {
      var i :| 0 <= i < |ids| && ids[i] == id;
    }
  }

  /** A page that links to so many others loses its own node, with all its edges. */
  lemma CrowdedOut(n: Naming, y: string, xs: seq<string>, l: Limits, g1: Graph)
    requires Crowding(n, y, xs, l)
    requires Pruned(Recorded(EMPTY, n, LinkingPage(y, xs, 0, l)), g1, KeepN(l), KeepE(l))
    ensures g1.current == Some(n.nodeId(y)) && n.nodeId(y) !in g1.nodes
    ensures g1.nodes.Keys == StableSort.Elements(Ids(n, xs)) && g1.edges == map[]
  {
    var o, ny, ids := LinkingPage(y, xs, 0, l), n.nodeId(y), StableSort.Elements(Ids(n, xs));
    var r := Recorded(EMPTY, n, o);
    CrowdingTargets(n, y, xs, l);
    RecordedAttached(EMPTY, n, o);
    SurvivesIff(EMPTY, n, o);
    CurrentKeptIff(EMPTY, n, o, g1);
    assert r.nodes.Keys == {ny} + ids;
    KeptRest(r, g1, ny, ids, KeepN(l), KeepE(l));
    VisitThenLinks(EMPTY, n, o);
    LinksComeFrom(Visited(EMPTY, n, o), n, ny, LinksOf(o), o.now);
    assert |r.nodes| == |r.nodes.Keys|;
    assert DropDangling(r.edges, g1.nodes) == map[];
  }

  lemma KeptRest(r: Graph, g1: Graph, ny: string, ids: set<string>, keepN: nat, keepE: nat)
    requires r.nodes.Keys == {ny} + ids && ny !in ids && |ids| == keepN
    requires Pruned(r, g1, keepN, keepE) && ny !in g1.nodes
    ensures g1.nodes.Keys == ids && |r.nodes.Keys| == keepN + 1
  {
    assert NodeTimes(r.nodes).Keys == r.nodes.Keys && |NodeTimes(r.nodes)| == |NodeTimes(r.nodes).Keys|;
    SetFacts.SubsetSize(g1.nodes.Keys, ids);
  }

  lemma NothingDropped(r: Graph, g2: Graph, keepN: nat, keepE: nat)
    requires |r.nodes| <= keepN && |r.edges| <= keepE && Pruned(r, g2, keepN, keepE)
    ensures g2.nodes.Keys == r.nodes.Keys && g2.edges == r.edges
  {
    var ts, es := NodeTimes(r.nodes), EdgeTimes(r.edges);
    assert ts.Keys == r.nodes.Keys && |ts| == |ts.Keys| && |r.nodes| == |r.nodes.Keys|;
    assert es.Keys == r.edges.Keys && |es| == |es.Keys| && |r.edges| == |r.edges.Keys|;
    AllKept(ts, g2.nodes.Keys, keepN);
    AllKept(es, g2.edges.Keys, keepE);
  }

  /** If the last page is no node, a visit to a page that is one, where nothing need be dropped, leaves an
      edge without a node. */
  lemma NextVisitDangles(n: Naming, g1: Graph, o: Observation, g2: Graph)
    requires g1.current.Some? && g1.current.value !in g1.nodes && n.nodeId(o.url) in g1.nodes && o.links == []
    requires |g1.nodes| <= KeepN(o.limits) && |g1.edges| < KeepE(o.limits)
    requires n.edgeId(EdgeKey(g1.current.value, n.nodeId(o.url), "nav", None, None)) !in g1.edges
    requires Pruned(Recorded(g1, n, o), g2, KeepN(o.limits), KeepE(o.limits))
    ensures !AllAttached(g2.edges, g2.nodes)
  {
    var r, id := Recorded(g1, n, o), n.edgeId(EdgeKey(g1.current.value, n.nodeId(o.url), "nav", None, None));
    assert r.nodes.Keys == g1.nodes.Keys && r.edges.Keys == g1.edges.Keys + {id};
    assert |r.nodes| == |r.nodes.Keys| && |g1.nodes| == |g1.nodes.Keys|;
    assert |r.edges| == |r.edges.Keys| && |g1.edges| == |g1.edges.Keys|;
    NothingDropped(r, g2, KeepN(o.limits), KeepE(o.limits));
    assert r.edges[id].key.src == g1.current.value;
    assert !Attached(g2.edges[id], g2.nodes);
  }

  /** For any number of kept nodes up to the 50 links that are noted, and whatever the digests: a visit to a
      page that links to as many pages with smaller ids, and then to one of those, ends with an edge that
      leaves no node. */
  lemma OneLinkTooMany(n: Naming, y: string, xs: seq<string>, l: Limits, g1: Graph, g2: Graph)
    requires Crowding(n, y, xs, l) && KeepE(l) >= 1
    requires Pruned(Recorded(EMPTY, n, LinkingPage(y, xs, 0, l)), g1, KeepN(l), KeepE(l))
    requires Pruned(Recorded(g1, n, LinkingPage(xs[0], [], 1, l)), g2, KeepN(l), KeepE(l))
    ensures g1.current == Some(n.nodeId(y)) && n.nodeId(y) !in g1.nodes
    ensures !AllAttached(g2.edges, g2.nodes)
  {
    CrowdedOut(n, y, xs, l, g1);
    CrowdingTargets(n, y, xs, l);
    assert Ids(n, xs)[0] == n.nodeId(xs[0]);
    assert |g1.nodes| == |g1.nodes.Keys|;
    NextVisitDangles(n, g1, LinkingPage(xs[0], [], 1, l), g2);
  }
}
