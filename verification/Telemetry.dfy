/** Request correlation and bounded buffers of `Tier0Telemetry` (`telemetry.py`, the Network
    branches of `ingest`). */
module Telemetry {
  import opened Wire
  import opened OrderedMap

  /** What is known of a request under way. `url` is already redacted. */
  datatype Meta = Meta(ts: int, name: Option<string>, url: Option<string>, kind: Option<string>,
                       status: Option<int>, mime: Option<string>)

  /** A completed request: the metadata it had, if any, and how it ended. */
  datatype Done = Done(meta: Option<Meta>, endTs: int, durationMs: Option<int>, ok: bool,
                       errorText: Option<string>, blockedReason: Option<string>, encodedLen: Option<real>)

  datatype NetworkItem = NetworkItem(ts: int, url: string, name: Option<string>, status: Option<int>,
                                     errorText: Option<string>, blockedReason: Option<string>, kind: Option<string>)

  datatype HarItem = HarItem(ts: int, url: string, name: Option<string>, status: Option<int>, kind: Option<string>,
                             startTs: Option<int>, ok: bool, durationMs: Option<int>, errorText: Option<string>,
                             encodedLen: Option<real>)

  /** Network events with their arrival time; a request id that is missing or not text is "". */
  datatype NetEvent =
    | RequestWillBeSent(id: string, ts: int, name: Option<string>, url: Option<string>, kind: Option<string>)
    | ResponseReceived(id: string, ts: int, status: Option<int>, mime: Option<string>, url: Option<string>, kind: Option<string>)
    | LoadingFailed(id: string, ts: int, errorText: string, blockedReason: Option<string>)
    | LoadingFinished(id: string, ts: int, encodedLen: Option<real>)

  datatype Tier0 = Tier0(
    req: seq<Entry<Meta>>, done: seq<Entry<Done>>,
    network: seq<NetworkItem>, harLite: seq<HarItem>, cursor: int)

  const BLANK := Tier0([], [], [], [], 0)

  // ---- Pieces shared by the object and its specification ----

  function NewMeta(e: NetEvent): Meta
    requires e.RequestWillBeSent?
  {
    Meta(e.ts, e.name, e.url, e.kind, None, None)
  }

  /** A response leaves its status and type on the request's metadata. */
  function WithResponse(meta: Meta, e: NetEvent): Meta
    requires e.ResponseReceived?
  {
    if e.status.None? then meta else meta.(status := e.status, mime := if e.mime.Some? then e.mime else meta.mime)
  }

  function Duration(meta: Option<Meta>, ts: int): Option<int> {
    if meta.Some? && meta.value.ts > 0 && ts - meta.value.ts >= 0 then Some(ts - meta.value.ts) else None
  }

  predicate IsErrorStatus(meta: Option<Meta>) {
    meta.Some? && meta.value.status.Some? && meta.value.status.value >= 400
  }

  predicate Ends(e: NetEvent) {
    e.LoadingFailed? || e.LoadingFinished?
  }

  /** The completed record of an ending event: failed loads are not ok; finished loads are ok
      unless the last response had an error status. */
  function DoneOf(meta: Option<Meta>, e: NetEvent): Done
    requires Ends(e)
  {
    match e
    case LoadingFailed(_, ts, errorText, blockedReason) =>
      Done(meta, ts, Duration(meta, ts), false, Some(errorText), blockedReason, None)
    case LoadingFinished(_, ts, encodedLen) =>
      Done(meta, ts, Duration(meta, ts), !IsErrorStatus(meta), None, None, encodedLen)
  }

  function UrlOf(meta: Option<Meta>): string {
    if meta.Some? && meta.value.url.Some? then meta.value.url.value else ""
  }

  function NameOf(meta: Option<Meta>): Option<string> {
    if meta.Some? then meta.value.name else None
  }

  const HIGH_SIGNAL := {"Document", "XHR", "Fetch", "Script", "Stylesheet"}

  /** Finished loads worth a summary: failures, primary resources, slow ones, large ones. */
  predicate WorthKeeping(meta: Option<Meta>, d: Done) {
    || !d.ok
    || (meta.Some? && meta.value.kind.Some? && meta.value.kind.value in HIGH_SIGNAL)
    || (d.durationMs.Some? && d.durationMs.value >= 300)
    || (d.encodedLen.Some? && d.encodedLen.value >= 20_000.0)
  }

  /** The network entry an event leaves, if any. */
  function NetworkItemOf(meta: Option<Meta>, e: NetEvent): seq<NetworkItem> {
    match e
    case ResponseReceived(_, ts, status, _, url, kind) =>
      if status.Some? && status.value >= 400 then
        [NetworkItem(ts, if url.Some? then url.value else UrlOf(meta), NameOf(meta), status, None, None, kind)]
      else []
    case LoadingFailed(_, ts, errorText, blockedReason) =>
      [NetworkItem(ts, UrlOf(meta), NameOf(meta), None, Some(errorText), blockedReason, None)]
    case _ => []
  }

  function HarItemOf(meta: Option<Meta>, e: NetEvent): seq<HarItem> {
    if !Ends(e) then []
    else
      var d := DoneOf(meta, e);
      if e.LoadingFailed? then
        [HarItem(e.ts, UrlOf(meta), NameOf(meta), None, None, None, false, d.durationMs, d.errorText, None)]
      else if WorthKeeping(meta, d) then
        [HarItem(e.ts, UrlOf(meta), NameOf(meta), if meta.Some? then meta.value.status else None,
                 if meta.Some? then meta.value.kind else None,
                 if meta.Some? && meta.value.ts > 0 then Some(meta.value.ts) else None,
                 d.ok, d.durationMs, None, d.encodedLen)]
      else []
  }

  /** Append, then keep the newest entries; without anything to append, nothing happens. */
  function Bounded<T>(buf: seq<T>, items: seq<T>, cap: nat): seq<T> {
    if items == [] then buf else Newest(buf + items, cap)
  }

  function Newest<T>(s: seq<T>, cap: nat): seq<T> {
    if |s| > cap then s[|s| - cap..] else s
  }

  function Remember<V>(m: seq<Entry<V>>, id: string, v: V, cap: nat): seq<Entry<V>> {
    if id == "" then m else Trim(Put(m, id, v), cap)
  }

  /** The metadata the telemetry has for an event's request when it handles the event. */
  function Known(t: Tier0, e: NetEvent): Option<Meta> {
    if e.id == "" then None
    else if e.ResponseReceived? && Get(t.req, e.id).Some? then Some(WithResponse(Get(t.req, e.id).value, e))
    else Get(t.req, e.id)
  }

  function Ingested(t: Tier0, e: NetEvent, maxEvents: nat, maxMap: nat): Tier0 {
    var meta := Known(t, e);
    var req :=
      match e
      case RequestWillBeSent(id, _, _, _, _) => Remember(t.req, id, NewMeta(e), maxMap)
      case ResponseReceived(id, _, _, _, _, _) => if meta.Some? then Put(t.req, id, meta.value) else t.req
      case _ => if e.id == "" then t.req else Remove(t.req, e.id);
    Tier0(req,
          if Ends(e) then Remember(t.done, e.id, DoneOf(meta, e), maxMap) else t.done,
          Bounded(t.network, NetworkItemOf(meta, e), maxEvents),
          Bounded(t.harLite, HarItemOf(meta, e), maxEvents),
          if e.ts > t.cursor then e.ts else t.cursor)
  }

  // ---- The telemetry object ----

  class Tier0Telemetry {
    const maxEvents: nat
    const maxRequestMap: nat
    var req: seq<Entry<Meta>>
    var done: seq<Entry<Done>>
    var network: seq<NetworkItem>
    var harLite: seq<HarItem>
    var cursor: int

    ghost function State(): Tier0
      reads this
    {
      Tier0(req, done, network, harLite, cursor)
    }

    constructor (maxEvents: nat, maxRequestMap: nat)
      ensures State() == BLANK && this.maxEvents == maxEvents && this.maxRequestMap == maxRequestMap
    {
      this.maxEvents, this.maxRequestMap := maxEvents, maxRequestMap;
      req, done, network, harLite, cursor := [], [], [], [], 0;
    }

    method PushNetwork(item: NetworkItem)
      modifies this`network
      ensures network == Bounded(old(network), [item], maxEvents)
    {
      network := network + [item];
      if |network| > maxEvents {
        network := network[|network| - maxEvents..];
      }
    }

    method PushHar(item: HarItem)
      modifies this`harLite
      ensures harLite == Bounded(old(harLite), [item], maxEvents)
    {
      harLite := harLite + [item];
      if |harLite| > maxEvents {
        harLite := harLite[|harLite| - maxEvents..];
      }
    }

    method RememberRequest(id: string, meta: Meta)
      modifies this`req
      ensures req == Remember(old(req), id, meta, maxRequestMap)
    {
      if id == "" {
        return;
      }
      req := Put(req, id, meta);
      if |req| > maxRequestMap {
        var drop := |req| - maxRequestMap;
        for k := 0 to drop
          invariant req == Put(old(req), id, meta)[k..]
        {
          req := req[1..];
        }
      }
    }

    method RememberDoneRequest(id: string, d: Done)
      modifies this`done
      ensures done == Remember(old(done), id, d, maxRequestMap)
    {
      if id == "" {
        return;
      }
      done := Put(done, id, d);
      if |done| > maxRequestMap {
        var drop := |done| - maxRequestMap;
        for k := 0 to drop
          invariant done == Put(old(done), id, d)[k..]
        {
          done := done[1..];
        }
      }
    }

    method OnRequestWillBeSent(e: NetEvent)
      requires e.RequestWillBeSent?
      modifies this`req
      ensures req == Remember(old(req), e.id, NewMeta(e), maxRequestMap)
    {
      RememberRequest(e.id, Meta(e.ts, e.name, e.url, e.kind, None, None));
    }

    method OnResponse(e: NetEvent)
      requires e.ResponseReceived?
      modifies this`req, this`network
      ensures var meta := Known(old(State()), e);
              && req == (if meta.Some? then Put(old(req), e.id, meta.value) else old(req))
              && network == Bounded(old(network), NetworkItemOf(meta, e), maxEvents)
    {
      var meta: Option<Meta> := None;
      if e.id != "" {
        meta := Get(req, e.id);
        if meta.Some? {
          if e.status.Some? {
            meta := Some(meta.value.(status := e.status));
            if e.mime.Some? {
              meta := Some(meta.value.(mime := e.mime));
            }
          }
          req := Put(req, e.id, meta.value);
        }
      }
      if e.status.Some? && e.status.value >= 400 {
        PushNetwork(NetworkItem(e.ts, if e.url.Some? then e.url.value else UrlOf(meta), NameOf(meta), e.status, None, None, e.kind));
      }
    }

    method OnFailed(e: NetEvent)
      requires e.LoadingFailed?
      modifies this`req, this`done, this`network, this`harLite
      ensures var meta := Known(old(State()), e);
              && req == (if e.id == "" then old(req) else Remove(old(req), e.id))
              && done == Remember(old(done), e.id, DoneOf(meta, e), maxRequestMap)
              && network == Bounded(old(network), NetworkItemOf(meta, e), maxEvents)
              && harLite == Bounded(old(harLite), HarItemOf(meta, e), maxEvents)
    {
      var meta := if e.id == "" then None else Get(req, e.id);
      PushNetwork(NetworkItem(e.ts, UrlOf(meta), NameOf(meta), None, Some(e.errorText), e.blockedReason, None));
      var durationMs := Duration(meta, e.ts);
      PushHar(HarItem(e.ts, UrlOf(meta), NameOf(meta), None, None, None, false, durationMs, Some(e.errorText), None));
      if e.id != "" {
        RememberDoneRequest(e.id, Done(meta, e.ts, durationMs, false, Some(e.errorText), e.blockedReason, None));
        req := Remove(req, e.id);
      }
    }

    method OnFinished(e: NetEvent)
      requires e.LoadingFinished?
      modifies this`req, this`done, this`harLite
      ensures var meta := Known(old(State()), e);
              && req == (if e.id == "" then old(req) else Remove(old(req), e.id))
              && done == Remember(old(done), e.id, DoneOf(meta, e), maxRequestMap)
              && harLite == Bounded(old(harLite), HarItemOf(meta, e), maxEvents)
    {
      var meta := if e.id == "" then None else Get(req, e.id);
      var durationMs := Duration(meta, e.ts);
      var ok := true;
      if meta.Some? && meta.value.status.Some? && meta.value.status.value >= 400 {
        ok := false;
      }
      var d := Done(meta, e.ts, durationMs, ok, None, None, e.encodedLen);
      if WorthKeeping(meta, d) {
        PushHar(HarItem(e.ts, UrlOf(meta), NameOf(meta), if meta.Some? then meta.value.status else None,
                        if meta.Some? then meta.value.kind else None,
                        if meta.Some? && meta.value.ts > 0 then Some(meta.value.ts) else None,
                        ok, durationMs, None, e.encodedLen));
      }
      if e.id != "" {
        RememberDoneRequest(e.id, d);
        req := Remove(req, e.id);
      }
    }

    /** The Network branches of `ingest`. */
    method Ingest(e: NetEvent)
      modifies this
      ensures State() == Ingested(old(State()), e, maxEvents, maxRequestMap)
    {
      if e.ts > cursor {
        cursor := e.ts;
      }
      match e {
        case RequestWillBeSent(_, _, _, _, _) => OnRequestWillBeSent(e);
        case ResponseReceived(_, _, _, _, _, _) => OnResponse(e);
        case LoadingFailed(_, _, _, _) => OnFailed(e);
        case LoadingFinished(_, _, _) => OnFinished(e);
      }
    }
  }

  // ---- Per-request reference ----

  /** One request on its own, with unlimited memory: what is known of it while it runs, and how
      it last ended. */
  datatype Life = Life(meta: Option<Meta>, done: Option<Done>)

  function Live(l: Life, e: NetEvent): Life {
    match e
    case RequestWillBeSent(_, _, _, _, _) => l.(meta := Some(NewMeta(e)))
    case ResponseReceived(_, _, _, _, _, _) => if l.meta.Some? then l.(meta := Some(WithResponse(l.meta.value, e))) else l
    case _ => Life(None, Some(DoneOf(l.meta, e)))
  }

  /** Only the events of this request count. */
  function LifeOf(events: seq<NetEvent>, id: string): Life {
    if events == [] then Life(None, None)
    else
      var l, e := LifeOf(events[..|events| - 1], id), events[|events| - 1];
      if e.id == id then Live(l, e) else l
  }

  /** The request's latest start, unless it has ended since. */
  function Started(events: seq<NetEvent>, id: string): (start: Option<NetEvent>)
    ensures start.Some? ==> start.value.RequestWillBeSent?
  {
    if events == [] then None
    else
      var before, e := Started(events[..|events| - 1], id), events[|events| - 1];
      if e.id != id || e.ResponseReceived? then before else if e.RequestWillBeSent? then Some(e) else None
  }

  /** The last status parsed since it last started or ended. */
  function LastStatus(events: seq<NetEvent>, id: string): Option<int> {
    if events == [] then None
    else
      var before, e := LastStatus(events[..|events| - 1], id), events[|events| - 1];
      if e.id != id then before
      else if !e.ResponseReceived? then None
      else if e.status.Some? then e.status
      else before
  }

  /** The last type that came with a status, since then. */
  function LastMime(events: seq<NetEvent>, id: string): Option<string> {
    if events == [] then None
    else
      var before, e := LastMime(events[..|events| - 1], id), events[|events| - 1];
      if e.id != id then before
      else if !e.ResponseReceived? then None
      else if e.status.Some? && e.mime.Some? then e.mime
      else before
  }

  /** A request under way is known by its latest start and what responses have told since. */
  lemma {:induction false} MetaMeans(events: seq<NetEvent>, id: string)
    ensures var meta, start := LifeOf(events, id).meta, Started(events, id);
            if start.None? then meta == None
            else meta == Some(Meta(start.value.ts, start.value.name, start.value.url, start.value.kind,
                                   LastStatus(events, id), LastMime(events, id)))
  {
    if events != [] {
      MetaMeans(events[..|events| - 1], id);
    }
  }

  /** How a request with this start and these responses ended. */
  ghost predicate Records(d: Done, start: Option<NetEvent>, status: Option<int>, mime: Option<string>, e: NetEvent)
    requires Ends(e) && (start.Some? ==> start.value.RequestWillBeSent?)
  {
    && d.meta == (if start.None? then None
                  else Some(Meta(start.value.ts, start.value.name, start.value.url, start.value.kind, status, mime)))
    && d.endTs == e.ts
    && d.durationMs == (if start.Some? && 0 < start.value.ts <= e.ts then Some(e.ts - start.value.ts) else None)
    && (d.ok <==> e.LoadingFinished? && !(start.Some? && status.Some? && status.value >= 400))
    && d.errorText == (if e.LoadingFailed? then Some(e.errorText) else None)
    && d.blockedReason == (if e.LoadingFailed? then e.blockedReason else None)
    && d.encodedLen == (if e.LoadingFinished? then e.encodedLen else None)
  }

  /** The completed record has the request's own start, its last status and type, and its own ending. It
      is not ok exactly if the load failed or the last status since the start is an error; and it lasted
      from that start, if the clock did not go back. */
  lemma DoneMeans(events: seq<NetEvent>, e: NetEvent)
    requires Ends(e)
    ensures var life := LifeOf(events + [e], e.id);
            && life.meta == None && life.done.Some?
            && Records(life.done.value, Started(events, e.id), LastStatus(events, e.id), LastMime(events, e.id), e)
  {
    MetaMeans(events, e.id);
    assert (events + [e])[..|events|] == events;
  }

  function IngestAll(events: seq<NetEvent>, maxEvents: nat, maxMap: nat): Tier0 {
    if events == [] then BLANK
    else Ingested(IngestAll(events[..|events| - 1], maxEvents, maxMap), events[|events| - 1], maxEvents, maxMap)
  }

  /** A new request finds the table full and pushes out the oldest entry, which is id's. */
  predicate Evicts(t: Tier0, e: NetEvent, id: string, maxMap: nat) {
    e.RequestWillBeSent? && e.id != "" && !Has(t.req, e.id) && |t.req| == maxMap && maxMap > 0 && t.req[0].key == id
  }

  /** The request's metadata has not been pushed out since it was last started or ended. */
  predicate Intact(events: seq<NetEvent>, id: string, maxEvents: nat, maxMap: nat) {
    events == [] ||
    var front, e := events[..|events| - 1], events[|events| - 1];
    if e.id == id && !e.ResponseReceived? then Ends(e) || maxMap > 0
    else Intact(front, id, maxEvents, maxMap) && !Evicts(IngestAll(front, maxEvents, maxMap), e, id, maxMap)
  }

  /** It was intact when it last ended. */
  predicate EndedIntact(events: seq<NetEvent>, id: string, maxEvents: nat, maxMap: nat) {
    events == [] ||
    var front, e := events[..|events| - 1], events[|events| - 1];
    if e.id == id && Ends(e) then Intact(front, id, maxEvents, maxMap) else EndedIntact(front, id, maxEvents, maxMap)
  }

  ghost predicate TablesOk(t: Tier0, maxMap: nat) {
    && DistinctKeys(t.req) && |t.req| <= maxMap
    && DistinctKeys(t.done) && |t.done| <= maxMap
  }

  /** Storing in a full table pushes out the oldest entry only, and never the one just stored. */
  lemma RememberGet<V>(m: seq<Entry<V>>, id: string, v: V, cap: nat, x: string)
    requires DistinctKeys(m) && |m| <= cap && id != ""
    ensures var m' := Remember(m, id, v, cap);
            && DistinctKeys(m') && |m'| <= cap
            && Get(m', id) == (if cap > 0 then Some(v) else None)
            && (x != id ==> Get(m', x) == if !Has(m, id) && |m| == cap > 0 && m[0].key == x then None else Get(m, x))
  {
    PutGet(m, id, v, x);
    PutGet(m, id, v, id);
    var p := Put(m, id, v);
    TrimGet(p, cap, x);
    TrimGet(p, cap, id);
    if !Has(m, id) {
      assert p[0] == if m == [] then Entry(id, v) else m[0];
      IndexIs(p, |m|);
      if x != id && m != [] && m[0].key == x {
        IndexIs(p, 0);
      }
    }
  }

  lemma ReqAfter(t: Tier0, e: NetEvent, maxEvents: nat, maxMap: nat, id: string)
    requires TablesOk(t, maxMap) && id != ""
    ensures var t' := Ingested(t, e, maxEvents, maxMap);
            && DistinctKeys(t'.req) && |t'.req| <= maxMap
            && Get(t'.req, id) ==
                 (if e.id == id && e.RequestWillBeSent? && maxMap == 0 then None
                  else if e.id == id then Live(Life(Get(t.req, id), None), e).meta
                  else if Evicts(t, e, id, maxMap) then None
                  else Get(t.req, id))
  {
    match e
    case RequestWillBeSent(k, _, _, _, _) =>
      if k != "" {
        RememberGet(t.req, k, NewMeta(e), maxMap, id);
      }
    case ResponseReceived(k, _, _, _, _, _) =>
      if k != "" && Get(t.req, k).Some? {
        PutGet(t.req, k, WithResponse(Get(t.req, k).value, e), id);
      }
    case _ =>
      if e.id != "" {
        RemoveGet(t.req, e.id, id);
        RemoveDistinct(t.req, e.id);
      }
  }

  lemma DoneAfter(t: Tier0, e: NetEvent, maxEvents: nat, maxMap: nat, id: string)
    requires TablesOk(t, maxMap) && id != ""
    ensures var t' := Ingested(t, e, maxEvents, maxMap);
            && DistinctKeys(t'.done) && |t'.done| <= maxMap
            && (if e.id == id && Ends(e) then
                  Get(t'.done, id) == if maxMap > 0 then Some(DoneOf(Get(t.req, id), e)) else None
                else Get(t'.done, id).None? || Get(t'.done, id) == Get(t.done, id))
  {
    if Ends(e) && e.id != "" {
      RememberGet(t.done, e.id, DoneOf(Known(t, e), e), maxMap, id);
    }
  }

  /** A request that just ended is no longer under way, and its record is stored if there is room for any. */
  lemma EndingMovesOver(t: Tier0, e: NetEvent, maxEvents: nat, maxMap: nat)
    requires TablesOk(t, maxMap) && Ends(e) && e.id != ""
    ensures var t' := Ingested(t, e, maxEvents, maxMap);
            TablesOk(t', maxMap) && !Has(t'.req, e.id) && (Has(t'.done, e.id) <==> maxMap > 0)
  {
    ReqAfter(t, e, maxEvents, maxMap, e.id);
    DoneAfter(t, e, maxEvents, maxMap, e.id);
  }

  lemma {:induction false} TablesStayOk(events: seq<NetEvent>, maxEvents: nat, maxMap: nat)
    ensures TablesOk(IngestAll(events, maxEvents, maxMap), maxMap)
  {
    if events != [] {
      var front, e := events[..|events| - 1], events[|events| - 1];
      TablesStayOk(front, maxEvents, maxMap);
      ReqAfter(IngestAll(front, maxEvents, maxMap), e, maxEvents, maxMap, "x");
      DoneAfter(IngestAll(front, maxEvents, maxMap), e, maxEvents, maxMap, "x");
    }
  }

  /** What the telemetry knows of a running request is what the request's own events say, exactly
      unless its entry was pushed out (or never fitted); then it knows nothing of it. */
  lemma {:induction false} RunningRefinesLife(events: seq<NetEvent>, id: string, maxEvents: nat, maxMap: nat)
    requires id != ""
    ensures var known, life := Get(IngestAll(events, maxEvents, maxMap).req, id), LifeOf(events, id).meta;
            && (known == life <==> Intact(events, id, maxEvents, maxMap))
            && (known != life ==> known.None? && life.Some?)
  {
    if events != [] {
      var front, e := events[..|events| - 1], events[|events| - 1];
      RunningRefinesLife(front, id, maxEvents, maxMap);
      TablesStayOk(front, maxEvents, maxMap);
      ReqAfter(IngestAll(front, maxEvents, maxMap), e, maxEvents, maxMap, id);
      if Evicts(IngestAll(front, maxEvents, maxMap), e, id, maxMap) {
        IndexIs(IngestAll(front, maxEvents, maxMap).req, 0);
      }
    }
  }

  /** The surviving record of a completed request is the fold of its own events exactly when its
      entry had not been pushed out while it ran. */
  lemma {:induction false} CompletedRefinesLife(events: seq<NetEvent>, id: string, maxEvents: nat, maxMap: nat)
    requires id != ""
    ensures var done := Get(IngestAll(events, maxEvents, maxMap).done, id);
            done.Some? ==> (done == LifeOf(events, id).done <==> EndedIntact(events, id, maxEvents, maxMap))
  {
    if events != [] {
      var front, e := events[..|events| - 1], events[|events| - 1];
      CompletedRefinesLife(front, id, maxEvents, maxMap);
      RunningRefinesLife(front, id, maxEvents, maxMap);
      TablesStayOk(front, maxEvents, maxMap);
      DoneAfter(IngestAll(front, maxEvents, maxMap), e, maxEvents, maxMap, id);
    }
  }

  // ---- Buffers ----

  function NetworkItems(events: seq<NetEvent>, maxEvents: nat, maxMap: nat): seq<NetworkItem> {
    if events == [] then []
    else
      var front, e := events[..|events| - 1], events[|events| - 1];
      NetworkItems(front, maxEvents, maxMap) + NetworkItemOf(Known(IngestAll(front, maxEvents, maxMap), e), e)
  }

  function HarItems(events: seq<NetEvent>, maxEvents: nat, maxMap: nat): seq<HarItem> {
    if events == [] then []
    else
      var front, e := events[..|events| - 1], events[|events| - 1];
      HarItems(front, maxEvents, maxMap) + HarItemOf(Known(IngestAll(front, maxEvents, maxMap), e), e)
  }

  lemma NewestOfNewest<T>(s: seq<T>, items: seq<T>, cap: nat)
    ensures Bounded(Newest(s, cap), items, cap) == Newest(s + items, cap)
  {
    if items == [] {
      assert s + items == s;
    } else if |s| > cap {
      var n := |s| - cap;
      assert Newest(s, cap) + items == (s + items)[n..];
      assert (s + items)[n..][|items|..] == (s + items)[n + |items|..];
    }
  }

  /** Each buffer holds the newest entries of everything ever pushed to it. */
  lemma {:induction false} BuffersHoldNewest(events: seq<NetEvent>, maxEvents: nat, maxMap: nat)
    ensures var t := IngestAll(events, maxEvents, maxMap);
            && t.network == Newest(NetworkItems(events, maxEvents, maxMap), maxEvents)
            && t.harLite == Newest(HarItems(events, maxEvents, maxMap), maxEvents)
  {
    if events != [] {
      var front, e := events[..|events| - 1], events[|events| - 1];
      BuffersHoldNewest(front, maxEvents, maxMap);
      var meta := Known(IngestAll(front, maxEvents, maxMap), e);
      NewestOfNewest(NetworkItems(front, maxEvents, maxMap), NetworkItemOf(meta, e), maxEvents);
      NewestOfNewest(HarItems(front, maxEvents, maxMap), HarItemOf(meta, e), maxEvents);
    }
  }
}
