/** The per-tab event queues of the extension gateways
    (`extension_gateway.py`, `extension_gateway_native_peer.py`). */
module GatewayEvents {
  import opened Wire
  import opened EventHistory
  import Text

  const MAX_EVENTS_PER_TAB := 2500

  /** `arrivals` numbers each tab's events for the proofs; the source keeps no such counter. */
  datatype Gateway = Gateway(queues: map<string, seq<Event>>, arrivals: map<string, nat>)

  const NO_EVENTS := Gateway(map[], map[])

  function QueueOf(g: Gateway, tab: string): seq<Event> {
    if tab in g.queues then g.queues[tab] else []
  }

  function ArrivalsOf(g: Gateway, tab: string): nat {
    if tab in g.arrivals then g.arrivals[tab] else 0
  }

  /** Two queued events that compare equal: same method, same params. */
  predicate SameValue(a: Event, b: Event) {
    a.name == b.name && a.params == b.params
  }

  function Ingested(g: Gateway, rawTab: string, name: string, params: Json): Gateway {
    var tab := Text.Strip(rawTab);
    if tab == "" || name == "" then g
    else
      Gateway(g.queues[tab := Push(QueueOf(g, tab), Event(name, params, ArrivalsOf(g, tab)), MAX_EVENTS_PER_TAB)],
              g.arrivals[tab := ArrivalsOf(g, tab) + 1])
  }

  function Popped(g: Gateway, rawTab: string, rawName: string): (Gateway, Option<Event>) {
    var tab, name := Text.Strip(rawTab), Text.Strip(rawName);
    if tab == "" || name == "" || tab !in g.queues then (g, None)
    else
      var (q, e) := Take(g.queues[tab], name);
      (g.(queues := g.queues[tab := q]), e)
  }

  class GatewayEventQueues {
    var queues: map<string, seq<Event>>
    var arrivals: map<string, nat>

    ghost function State(): Gateway
      reads this
    {
      Gateway(queues, arrivals)
    }

    constructor ()
      ensures State() == NO_EVENTS
    {
      queues, arrivals := map[], map[];
    }

    method Ingest(rawTab: string, name: string, params: Json)
      modifies this
      ensures State() == Ingested(old(State()), rawTab, name, params)
    {
      var tab := Text.Strip(rawTab);
      if tab == "" || name == "" {
        return;
      }
      var q := if tab in queues then queues[tab] else [];
      var n := if tab in arrivals then arrivals[tab] else 0;
      q := q + [Event(name, params, n)];
      ghost var longer := q;
      while |q| > MAX_EVENTS_PER_TAB
        invariant |q| <= |longer| && q == longer[|longer| - |q|..]
        invariant |longer| <= MAX_EVENTS_PER_TAB ==> q == longer
        invariant |longer| > MAX_EVENTS_PER_TAB ==> |q| >= MAX_EVENTS_PER_TAB
      {
        q := q[1..];
      }
      queues := queues[tab := q];
      arrivals := arrivals[tab := n + 1];
    }

    /** Finds the oldest event of the name and deletes it by value. */
    method PopEvent(rawTab: string, rawName: string) returns (e: Option<Event>)
      modifies this`queues
      ensures (State(), e) == Popped(old(State()), rawTab, rawName)
    {
      var tab, name := Text.Strip(rawTab), Text.Strip(rawName);
      if tab == "" || name == "" || tab !in queues {
        return None;
      }
      var q := queues[tab];
      for i := 0 to |q|
        invariant queues == old(queues)
        invariant forall j :: 0 <= j < i ==> q[j].name != name
      {
        var ev := q[i];
        if ev.name == name {
          FindIs(q, name, i);
          var shorter := RemoveValue(q, ev, i);
          queues := queues[tab := shorter];
          return Some(ev);
        }
      }
      FindIs(q, name, |q|);
      assert queues[tab := q] == queues;
      return None;
    }
  }

  /** `deque.remove`: deletes the first entry equal to ev. The entry found first under its name is
      the first one equal to it, so exactly the matched position goes. */
  method RemoveValue(q: seq<Event>, ev: Event, ghost i: nat) returns (r: seq<Event>)
    requires i < |q| && q[i] == ev && forall j :: 0 <= j < i ==> q[j].name != ev.name
    ensures r == RemoveAt(q, i)
  {
    var k := 0;
    while !SameValue(q[k], ev)
      invariant k <= i
      decreases i - k
    {
      k := k + 1;
    }
    r := q[..k] + q[k + 1..];
  }

  // ---- Runs ----

  datatype Action = Ingest(tab: string, name: string, params: Json) | Pop(tab: string, name: string)

  /** The queues and everything handed out so far, with the tab it was handed out for. */
  datatype Run = Run(gateway: Gateway, popped: seq<(string, Event)>)

  const QUIET := Run(NO_EVENTS, [])

  function Act(r: Run, a: Action): Run {
    match a
    case Ingest(tab, name, params) => r.(gateway := Ingested(r.gateway, tab, name, params))
    case Pop(tab, name) =>
      var (g, e) := Popped(r.gateway, tab, name);
      Run(g, if e.Some? then r.popped + [(Text.Strip(tab), e.value)] else r.popped)
  }

  function ActAll(actions: seq<Action>): Run {
    if actions == [] then QUIET else Act(ActAll(actions[..|actions| - 1]), actions[|actions| - 1])
  }

  /** What one action is to one tab. */
  function TabStep(h: History, a: Action, tab: string): History {
    if Text.Strip(a.tab) != tab || tab == "" then h
    else if a.Ingest? then
      if a.name == "" then h else Step(h, Arrive(a.name, a.params), MAX_EVENTS_PER_TAB)
    else
      var name := Text.Strip(a.name);
      if name == "" then h else Step(h, Read(name), MAX_EVENTS_PER_TAB)
  }

  /** What one tab sees of a run, as a history. */
  function TabHistory(actions: seq<Action>, tab: string): History {
    if actions == [] then EMPTY else TabStep(TabHistory(actions[..|actions| - 1], tab), actions[|actions| - 1], tab)
  }

  /** What was handed out for one tab. */
  function PoppedFor(popped: seq<(string, Event)>, tab: string): seq<Event> {
    if popped == [] then []
    else
      var last := popped[|popped| - 1];
      PoppedFor(popped[..|popped| - 1], tab) + (if last.0 == tab then [last.1] else [])
  }

  ghost predicate TabFollows(h: History, r: Run, tab: string) {
    && h.queue == QueueOf(r.gateway, tab)
    && |h.arrived| == ArrivalsOf(r.gateway, tab)
    && h.taken == Stamps(PoppedFor(r.popped, tab))
    && AsArrived(h.arrived, PoppedFor(r.popped, tab))
  }

  ghost predicate AsArrived(arrived: seq<Event>, events: seq<Event>) {
    forall i :: 0 <= i < |events| ==> events[i].stamp < |arrived| && arrived[events[i].stamp] == events[i]
  }

  lemma PoppedSnoc(popped: seq<(string, Event)>, t: string, e: Event, tab: string)
    ensures PoppedFor(popped + [(t, e)], tab) == PoppedFor(popped, tab) + (if t == tab then [e] else [])
  {
    assert (popped + [(t, e)])[..|popped|] == popped;
  }

  lemma IngestFollows(h: History, r: Run, rawTab: string, name: string, params: Json, tab: string)
    requires TabFollows(h, r, tab)
    ensures var r' := Act(r, Ingest(rawTab, name, params));
            if Text.Strip(rawTab) == tab != "" && name != ""
            then TabFollows(Step(h, Arrive(name, params), MAX_EVENTS_PER_TAB), r', tab)
            else TabFollows(h, r', tab)
  {
  }

  lemma PopFollows(h: History, r: Run, rawTab: string, rawName: string, tab: string)
    requires TabFollows(h, r, tab) && Known(h.arrived, h.queue)
    ensures var r' := Act(r, Pop(rawTab, rawName));
            if Text.Strip(rawTab) == tab != "" && Text.Strip(rawName) != ""
            then TabFollows(Step(h, Read(Text.Strip(rawName)), MAX_EVENTS_PER_TAB), r', tab)
            else TabFollows(h, r', tab)
  {
    var e := Popped(r.gateway, rawTab, rawName).1;
    if e.Some? {
      PoppedSnoc(r.popped, Text.Strip(rawTab), e.value, tab);
      StampsSnoc(PoppedFor(r.popped, tab), e.value);
    }
  }

  lemma StepFollows(h: History, r: Run, a: Action, tab: string)
    requires TabFollows(h, r, tab) && Inv(h, MAX_EVENTS_PER_TAB)
    ensures TabFollows(TabStep(h, a, tab), Act(r, a), tab) && Inv(TabStep(h, a, tab), MAX_EVENTS_PER_TAB)
  {
    match a
    case Ingest(rawTab, name, params) =>
      IngestFollows(h, r, rawTab, name, params, tab);
      ArriveKeeps(h, name, params, MAX_EVENTS_PER_TAB);
    case Pop(rawTab, rawName) =>
      PopFollows(h, r, rawTab, rawName, tab);
      if Text.Strip(rawName) != "" {
        ReadKeeps(h, Text.Strip(rawName), MAX_EVENTS_PER_TAB);
      }
  }

  /** Tabs do not interfere: each tab's queue and what was popped from it are those of its own
      history, in which nothing is read twice and each name is read in arrival order. */
  lemma {:induction false} TabsAreIndependent(actions: seq<Action>, tab: string)
    requires tab != ""
    ensures TabFollows(TabHistory(actions, tab), ActAll(actions), tab)
    ensures Inv(TabHistory(actions, tab), MAX_EVENTS_PER_TAB)
  {
    if actions != [] {
      var front, a := actions[..|actions| - 1], actions[|actions| - 1];
      TabsAreIndependent(front, tab);
      StepFollows(TabHistory(front, tab), ActAll(front), a, tab);
    }
  }

  /** Every queue stays within its bound, and pops of one tab and name are FIFO: each event popped
      once, as it arrived, in arrival order. */
  lemma PopsAreFifo(actions: seq<Action>, tab: string)
    requires tab != ""
    ensures |QueueOf(ActAll(actions).gateway, tab)| <= MAX_EVENTS_PER_TAB
    ensures var popped := PoppedFor(ActAll(actions).popped, tab);
            && AsArrived(TabHistory(actions, tab).arrived, popped)
            && (forall i, j :: 0 <= i < j < |popped| ==> popped[i].stamp != popped[j].stamp)
            && (forall i, j :: 0 <= i < j < |popped| && popped[i].name == popped[j].name ==> popped[i].stamp < popped[j].stamp)
  {
    TabsAreIndependent(actions, tab);
    var h := TabHistory(actions, tab);
    NothingReadTwice(h, MAX_EVENTS_PER_TAB);
    var popped := PoppedFor(ActAll(actions).popped, tab);
    assert forall i :: 0 <= i < |popped| ==> h.taken[i] == popped[i].stamp;
  }
}
